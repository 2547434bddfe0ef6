/**
 The CONNECT relay: two byte streams pumped between two non-blocking sockets, with partial
 sends, backpressure and half-close, against any behaviour of the kernel.
 */
module ConnectTunnel {

  datatype Side = Client | Upstream

  function Other(s: Side): Side {
    if s.Client? then Upstream else Client
  }

  // The events that the relay asks poll for, on both sockets.
  datatype Interest = Interest(clientRead: bool, clientWrite: bool, upstreamRead: bool, upstreamWrite: bool)

  // What the relay did to its sockets, as far as it is visible outside.
  datatype Event =
    | Received(from: Side, data: string)
    | Eof(from: Side)
    | RecvBlocked(from: Side)    // recv would block
    | Sent(to: Side, data: string)
    | SendBlocked(to: Side)      // send would block
    | ShutDown(to: Side)         // shutdown(SHUT_WR)
    | Polled(interest: Interest)
    | Reported(client: bool, upstream: bool)  // which sockets poll found readable
    | Fault                      // a failed send, recv or poll, a timeout or a hang-up

  // What a trace says about one socket. `blocked`: since the last poll, the last send would block.
  // `ready`: reported readable and not read to the end of what is there.
  datatype Stream = Stream(read: string, eof: bool, ready: bool, sent: string, blocked: bool, shut: bool)

  const UNUSED := Stream("", false, false, "", false, false)

  datatype View = View(client: Stream, upstream: Stream, fault: bool)

  function At(v: View, s: Side): Stream {
    if s.Client? then v.client else v.upstream
  }

  function Put(v: View, s: Side, x: Stream): View {
    if s.Client? then v.(client := x) else v.(upstream := x)
  }

  function Observe(v: View, e: Event): View {
    match e
    case Received(s, d) => Put(v, s, At(v, s).(read := At(v, s).read + d))
    case Eof(s) => Put(v, s, At(v, s).(eof := true, ready := false))
    case RecvBlocked(s) => Put(v, s, At(v, s).(ready := false))
    case Sent(s, d) => Put(v, s, At(v, s).(sent := At(v, s).sent + d, blocked := false))
    case SendBlocked(s) => Put(v, s, At(v, s).(blocked := true))
    case ShutDown(s) => Put(v, s, At(v, s).(shut := true))
    case Polled(_) => v.(client := v.client.(blocked := false), upstream := v.upstream.(blocked := false))
    case Reported(c, u) => v.(client := v.client.(ready := c), upstream := v.upstream.(ready := u))
    case Fault => v.(fault := true)
  }

  function ViewOf(trace: seq<Event>): View {
    if trace == [] then View(UNUSED, UNUSED, false)
    else Observe(ViewOf(trace[..|trace| - 1]), trace[|trace| - 1])
  }

  // Everything read from the other socket has been sent to this one.
  predicate Delivered(v: View, to: Side) {
    At(v, to).sent == At(v, Other(to)).read
  }

  // The stream into this socket is over: end of file seen, all delivered, half-close issued.
  predicate Complete(v: View, to: Side) {
    At(v, Other(to)).eof && Delivered(v, to) && At(v, to).shut
  }

  // Read only what can be passed on at once, write only what is left over.
  function Wanted(v: View): Interest {
    Interest(!v.client.eof && Delivered(v, Upstream), !Delivered(v, Client),
             !v.upstream.eof && Delivered(v, Client), !Delivered(v, Upstream))
  }

  // What the relay may do next, given everything it has done so far.
  predicate Allowed(v: View, e: Event) {
    !v.fault &&
    match e
    case Received(s, d) => d != "" && !At(v, s).eof && At(v, s).ready
    case Eof(s) => !At(v, s).eof && At(v, s).ready
    case RecvBlocked(s) => !At(v, s).eof && At(v, s).ready
    case Sent(s, d) => d != "" && !At(v, s).shut && At(v, s).sent + d <= At(v, Other(s)).read
    case SendBlocked(s) => !At(v, s).shut && !Delivered(v, s)
    case ShutDown(s) => !At(v, s).shut && At(v, Other(s)).eof && Delivered(v, s)
    case Polled(i) =>
      && i == Wanted(v)
      && i != Interest(false, false, false, false)
      && (i.clientWrite ==> v.client.blocked) && (i.upstreamWrite ==> v.upstream.blocked)
      && !v.client.ready && !v.upstream.ready
      && forall s :: At(v, Other(s)).eof && Delivered(v, s) ==> At(v, s).shut
    case Reported(c, u) =>
      && !v.client.ready && !v.upstream.ready
      && (c ==> Wanted(v).clientRead) && (u ==> Wanted(v).upstreamRead)
    case Fault => true
  }

  predicate Disciplined(trace: seq<Event>) {
    trace == [] ||
    (Disciplined(trace[..|trace| - 1]) && Allowed(ViewOf(trace[..|trace| - 1]), trace[|trace| - 1]))
  }

  lemma Snoc(trace: seq<Event>, e: Event)
    ensures ViewOf(trace + [e]) == Observe(ViewOf(trace), e)
    ensures Disciplined(trace + [e]) <==> Disciplined(trace) && Allowed(ViewOf(trace), e)
  {
    assert (trace + [e])[..|trace|] == trace;
  }

  /** A disciplined trace never sends what was not read, nor out of order. */
  lemma {:induction false} SentIsPrefixOfRead(trace: seq<Event>, s: Side)
    requires Disciplined(trace)
    ensures At(ViewOf(trace), s).sent <= At(ViewOf(trace), Other(s)).read
  {
    if trace != [] {
      SentIsPrefixOfRead(trace[..|trace| - 1], s);
      PrefixStep(ViewOf(trace[..|trace| - 1]), trace[|trace| - 1], s);
    }
  }

  lemma PrefixStep(v: View, e: Event, s: Side)
    requires Allowed(v, e) && At(v, s).sent <= At(v, Other(s)).read
    ensures At(Observe(v, e), s).sent <= At(Observe(v, e), Other(s)).read
  {
    if e.Received? {
      PrefixGrows(At(v, s).sent, At(v, Other(s)).read, e.data);
    }
  }

  lemma PrefixGrows(a: string, b: string, c: string)
    requires a <= b
    ensures a <= b + c
  {
  }

  /** In a disciplined trace nothing is sent to a socket after its half-close. */
  lemma {:induction false} NothingAfterShutdown(trace: seq<Event>, i: nat, j: nat)
    requires Disciplined(trace) && i < j < |trace| && trace[i].ShutDown?
    ensures !(trace[j].Sent? && trace[j].to == trace[i].to)
    ensures !(trace[j].ShutDown? && trace[j].to == trace[i].to)
    ensures At(ViewOf(trace), trace[i].to).shut
  {
    var n := |trace| - 1;
    ShutPersists(trace[..n], i);
    if j < n {
      NothingAfterShutdown(trace[..n], i, j);
    }
  }

  lemma {:induction false} ShutPersists(trace: seq<Event>, i: nat)
    requires i < |trace| && trace[i].ShutDown?
    ensures At(ViewOf(trace), trace[i].to).shut
  {
    var n := |trace| - 1;
    if i < n {
      ShutPersists(trace[..n], i);
      ShutStep(ViewOf(trace[..n]), trace[n], trace[i].to);
    }
  }

  lemma ShutStep(v: View, e: Event, s: Side)
    requires At(v, s).shut
    ensures At(Observe(v, e), s).shut
  {
  }

  // The socket has refused a send since the last poll, and has taken nothing after that.
  ghost predicate BlockedBy(trace: seq<Event>, i: nat, s: Side) {
    && i < |trace| && trace[i] == SendBlocked(s)
    && forall k :: i < k < |trace| ==> !trace[k].Polled? && !(trace[k].Sent? && trace[k].to == s)
  }

  lemma {:induction false} BlockedSince(trace: seq<Event>, s: Side) returns (i: nat)
    requires At(ViewOf(trace), s).blocked
    ensures BlockedBy(trace, i, s)
  {
    var n := |trace| - 1;
    if trace[n] == SendBlocked(s) {
      i := n;
    } else {
      i := BlockedSince(trace[..n], s);
    }
  }

  // poll was asked whether the socket can be written.
  predicate AsksToWrite(e: Event, s: Side) {
    e.Polled? && if s.Client? then e.interest.clientWrite else e.interest.upstreamWrite
  }

  /** In a disciplined trace the relay waits for a socket to take bytes only after it has refused some. */
  lemma WaitsOnlyWhenBlocked(trace: seq<Event>, j: nat, s: Side) returns (i: nat)
    requires Disciplined(trace) && j < |trace| && AsksToWrite(trace[j], s)
    ensures i < j && BlockedBy(trace[..j], i, s)
  {
    DisciplinedAt(trace, j);
    i := BlockedSince(trace[..j], s);
  }

  lemma {:induction false} DisciplinedAt(trace: seq<Event>, j: nat)
    requires Disciplined(trace) && j < |trace|
    ensures Disciplined(trace[..j]) && Allowed(ViewOf(trace[..j]), trace[j])
  {
    var n := |trace| - 1;
    if j < n {
      DisciplinedAt(trace[..n], j);
      assert trace[..n][..j] == trace[..j];
    }
  }

  predicate ReportsReadable(e: Event, s: Side) {
    e.Reported? && if s.Client? then e.client else e.upstream
  }

  // The socket has been read until it had no more.
  predicate ReadOut(e: Event, s: Side) {
    e == Eof(s) || e == RecvBlocked(s)
  }

  lemma {:induction false} ReadyUntil(trace: seq<Event>, i: nat, s: Side)
    requires Disciplined(trace) && i < |trace| && ReportsReadable(trace[i], s)
    requires forall k :: i < k < |trace| ==> !ReadOut(trace[k], s)
    ensures At(ViewOf(trace), s).ready
  {
    var n := |trace| - 1;
    if i < n {
      ReadyUntil(trace[..n], i, s);
    }
  }

  /** In a disciplined trace a socket reported readable is read out before the next poll. */
  lemma ReadsOutBeforePolling(trace: seq<Event>, i: nat, j: nat, s: Side)
    requires Disciplined(trace) && i < j < |trace| && ReportsReadable(trace[i], s) && trace[j].Polled?
    ensures exists k :: i < k < j && ReadOut(trace[k], s)
  {
    DisciplinedAt(trace, j);
    if forall k :: i < k < j ==> !ReadOut(trace[k], s) {
      ReadyUntil(trace[..j], i, s);
    }
  }

  const IO_BUFFER: nat := 8192

  datatype RecvAnswer = Data(bytes: string) | End | RecvAgain | RecvInterrupted | RecvError

  datatype TunnelSend = Accepted(n: nat) | SendAgain | SendInterrupted | SendError

  datatype PollAnswer = Ready(client: bool, upstream: bool) | HangUp | TimedOut | PollInterrupted | PollError

  // The kernel answers as it likes within the contracts of its calls. A run is observed for
  // any finite number of calls, after which the kernel does not answer any more.
  class Kernel {
    var calls: nat
    ghost var trace: seq<Event>
    ghost var view: View           // ViewOf(trace)
    ghost var disciplined: bool    // Disciplined(trace)

    ghost predicate Valid()
      reads this
    {
      view == ViewOf(trace) && disciplined == Disciplined(trace)
    }

    constructor (calls: nat)
      ensures Valid() && trace == [] && this.calls == calls && disciplined && view == ViewOf([])
    {
      this.calls := calls;
      trace, view, disciplined := [], ViewOf([]), true;
    }

    ghost method Log(e: Event)
      requires Valid()
      modifies this`trace, this`view, this`disciplined
      ensures Valid() && trace == old(trace) + [e]
      ensures view == Observe(old(view), e)
      ensures disciplined == (old(disciplined) && Allowed(old(view), e))
    {
      Snoc(trace, e);
      trace, view, disciplined := trace + [e], Observe(view, e), disciplined && Allowed(view, e);
    }

    ghost method LogTwo(e: Event, f: Event)
      requires Valid()
      modifies this`trace, this`view, this`disciplined
      ensures Valid() && view == Observe(Observe(old(view), e), f)
      ensures disciplined == (old(disciplined) && Allowed(old(view), e) && Allowed(Observe(old(view), e), f))
    {
      Log(e);
      Log(f);
    }

    // The effect of a call that shows as one event.
    twostate predicate Logged(e: Event)
      reads this
    {
      view == Observe(old(view), e) && disciplined == (old(disciplined) && Allowed(old(view), e))
    }

    twostate predicate Quiet()
      reads this
    {
      view == old(view) && disciplined == old(disciplined)
    }

    method Recv(s: Side) returns (r: RecvAnswer)
      requires Valid() && calls > 0
      modifies this
      ensures Valid() && calls == old(calls) - 1
      ensures r.Data? ==> 0 < |r.bytes| <= IO_BUFFER && Logged(Received(s, r.bytes))
      ensures r.End? ==> Logged(Eof(s))
      ensures r.RecvAgain? ==> Logged(RecvBlocked(s))
      ensures r.RecvInterrupted? ==> Quiet()
      ensures r.RecvError? ==> Logged(Fault)
    {
      calls := calls - 1;
      r := RecvError;
      if * {
        var d: string := *;
        if d == "" || |d| > IO_BUFFER {
          d := "x";
        }
        r := Data(d);
        Log(Received(s, d));
      } else if * {
        r := End;
        Log(Eof(s));
      } else if * {
        r := RecvAgain;
        Log(RecvBlocked(s));
      } else if * {
        r := RecvInterrupted;
      } else {
        Log(Fault);
      }
    }

    method Send(s: Side, data: string) returns (r: TunnelSend)
      requires Valid() && calls > 0 && data != ""
      modifies this
      ensures Valid() && calls == old(calls) - 1
      ensures r.Accepted? ==> 0 < r.n <= |data| && Logged(Sent(s, data[..r.n]))
      ensures r.SendAgain? ==> Logged(SendBlocked(s))
      ensures r.SendInterrupted? ==> Quiet()
      ensures r.SendError? ==> Logged(Fault)
    {
      calls := calls - 1;
      r := SendError;
      if * {
        var n: nat :| 0 < n <= |data|;
        r := Accepted(n);
        Log(Sent(s, data[..n]));
      } else if * {
        r := SendAgain;
        Log(SendBlocked(s));
      } else if * {
        r := SendInterrupted;
      } else {
        Log(Fault);
      }
    }

    method Shutdown(s: Side)
      requires Valid()
      modifies this
      ensures Valid() && calls == old(calls) && Logged(ShutDown(s))
    {
      Log(ShutDown(s));
    }

    // poll reports readability only where it was asked for.
    method PollAnswerFor(i: Interest) returns (r: PollAnswer)
      ensures r.Ready? ==> (r.client ==> i.clientRead) && (r.upstream ==> i.upstreamRead)
    {
      r := PollInterrupted;
      if * {
        var c: bool, u: bool := *, *;
        r := Ready(c && i.clientRead, u && i.upstreamRead);
      } else if * {
        r := HangUp;
      } else if * {
        r := TimedOut;
      } else if * {
        r := PollError;
      }
    }

    method Poll(i: Interest) returns (r: PollAnswer)
      requires Valid() && calls > 0
      modifies this
      ensures Valid() && calls == old(calls) - 1
      ensures r.Ready? ==> (r.client ==> i.clientRead) && (r.upstream ==> i.upstreamRead)
      ensures r.PollInterrupted? ==> Logged(Polled(i))
      ensures r.Ready? ==>
        && view == Observe(Observe(old(view), Polled(i)), Reported(r.client, r.upstream))
        && disciplined == (old(disciplined) && Allowed(old(view), Polled(i))
                           && Allowed(Observe(old(view), Polled(i)), Reported(r.client, r.upstream)))
      ensures r.HangUp? || r.TimedOut? || r.PollError? ==>
        && view == Observe(Observe(old(view), Polled(i)), Fault)
        && disciplined == (old(disciplined) && Allowed(old(view), Polled(i))
                           && Allowed(Observe(old(view), Polled(i)), Fault))
    {
      calls := calls - 1;
      r := PollAnswerFor(i);
      if r.PollInterrupted? {
        Log(Polled(i));
      } else {
        LogTwo(Polled(i), if r.Ready? then Reported(r.client, r.upstream) else Fault);
      }
    }
  }

  // How a helper of the relay ends: Cut means that the observation ended inside it.
  datatype Flow = Fine | Failed | Cut

  // The unsent part of a buffer is what was read for this socket and not sent to it yet.
  ghost predicate Holds(v: View, s: Side, buf: string, offset: nat) {
    && offset <= |buf|
    && At(v, s).sent + buf[offset..] == At(v, Other(s)).read
    && (buf[offset..] != "" ==> !At(v, s).shut)
  }

  // Sending the next n bytes of a buffer is allowed and leaves the rest of it unsent.
  lemma SentKeeps(v: View, s: Side, buf: string, at: nat, n: nat)
    requires Holds(v, s, buf, at) && !v.fault && 0 < n <= |buf| - at
    ensures Allowed(v, Sent(s, buf[at..][..n]))
    ensures Holds(Observe(v, Sent(s, buf[at..][..n])), s, buf, at + n)
  {
    assert buf[at..] == buf[at..][..n] + buf[at + n..];
  }

  method FlushNonblocking(k: Kernel, s: Side, buf: string, offset: nat)
    returns (flow: Flow, rest: string, at: nat)
    requires k.Valid() && k.disciplined && !k.view.fault && Holds(k.view, s, buf, offset) && !At(k.view, s).blocked
    modifies k
    ensures k.Valid() && k.disciplined && k.calls <= old(k.calls)
    ensures At(k.view, Other(s)) == old(At(k.view, Other(s)))
    ensures At(k.view, s) == old(At(k.view, s)).(sent := At(k.view, s).sent, blocked := At(k.view, s).blocked)
    ensures k.view.fault == flow.Failed?
    ensures Holds(k.view, s, rest, at)
    ensures flow.Fine? ==> (if rest == "" then at == 0 else at < |rest| && At(k.view, s).blocked)
    ensures flow.Cut? ==> k.calls == 0
  {
    rest, at := buf, offset;
    while at < |rest|
      invariant rest == buf && k.Valid() && k.disciplined && k.calls <= old(k.calls)
      invariant At(k.view, Other(s)) == old(At(k.view, Other(s))) && !k.view.fault
      invariant At(k.view, s) == old(At(k.view, s)).(sent := At(k.view, s).sent)
      invariant Holds(k.view, s, rest, at) && !At(k.view, s).blocked
      decreases k.calls
    {
      if k.calls == 0 {
        return Cut, rest, at;
      }
      ghost var v := k.view;
      var r := k.Send(s, rest[at..]);
      if r.Accepted? {
        SentKeeps(v, s, rest, at, r.n);
        at := at + r.n;
        continue;
      }
      if r.SendInterrupted? {
        continue;
      }
      return if r.SendAgain? then Fine else Failed, rest, at;
    }
    return Fine, "", 0;
  }

  // Received bytes are owed to the other side, behind those owed already.
  lemma ReadKeeps(v: View, s: Side, buf: string, bytes: string)
    requires Holds(v, Other(s), buf, 0) && !At(v, Other(s)).shut
    ensures Holds(Observe(v, Received(s, bytes)), Other(s), buf + bytes, 0)
  {
    assert buf[0..] == buf && (buf + bytes)[0..] == buf + bytes;
  }

  method AppendNonblockingRead(k: Kernel, s: Side, buf: string)
    returns (flow: Flow, grown: string, eof: bool)
    requires k.Valid() && k.disciplined && !k.view.fault && !At(k.view, s).eof && At(k.view, s).ready
    requires Holds(k.view, Other(s), buf, 0) && !At(k.view, Other(s)).shut
    modifies k
    ensures k.Valid() && k.disciplined && k.calls <= old(k.calls)
    ensures At(k.view, Other(s)) == old(At(k.view, Other(s)))
    ensures At(k.view, s) == old(At(k.view, s)).(read := At(k.view, s).read, eof := eof, ready := At(k.view, s).ready)
    ensures k.view.fault == flow.Failed?
    ensures flow.Fine? ==> !At(k.view, s).ready
    ensures Holds(k.view, Other(s), grown, 0)
    ensures flow.Cut? ==> k.calls == 0
  {
    grown, eof := buf, false;
    while true
      invariant k.Valid() && k.disciplined && k.calls <= old(k.calls) && !eof
      invariant At(k.view, Other(s)) == old(At(k.view, Other(s))) && !k.view.fault
      invariant At(k.view, s) == old(At(k.view, s)).(read := At(k.view, s).read)
      invariant Holds(k.view, Other(s), grown, 0)
      decreases k.calls
    {
      if k.calls == 0 {
        return Cut, grown, eof;
      }
      ghost var v := k.view;
      var r := k.Recv(s);
      if r.Data? {
        ReadKeeps(v, s, grown, r.bytes);
        grown := grown + r.bytes;
        continue;
      }
      if r.End? {
        return Fine, grown, true;
      }
      if r.RecvInterrupted? {
        continue;
      }
      return if r.RecvAgain? then Fine else Failed, grown, eof;
    }
  }

  datatype Outcome =
    | Finished    // forward_connect_tunnel returns true
    | Broken      // the loop is left with an error
    | Observed    // the observation of the run ended

  // The local variables of the relay loop.
  datatype Pump = Pump(c2u: string, c2uOffset: nat, u2c: string, u2cOffset: nat,
                       clientEof: bool, upstreamEof: bool, upstreamShut: bool, clientShut: bool)

  // The variables agree with what happened on the sockets.
  ghost predicate Tracks(p: Pump, v: View) {
    && Holds(v, Upstream, p.c2u, p.c2uOffset) && Holds(v, Client, p.u2c, p.u2cOffset)
    && p.clientEof == v.client.eof && p.upstreamEof == v.upstream.eof
    && p.upstreamShut == v.upstream.shut && p.clientShut == v.client.shut
    && (v.upstream.shut ==> v.client.eof) && (v.client.shut ==> v.upstream.eof)
  }

  // An empty buffer means that everything read has been passed on.
  ghost predicate Flushed(p: Pump, v: View) {
    && (if p.c2u == "" then p.c2uOffset == 0 else p.c2uOffset < |p.c2u|)
    && (if p.u2c == "" then p.u2cOffset == 0 else p.u2cOffset < |p.u2c|)
    && (p.c2u == "" <==> Delivered(v, Upstream))
    && (p.u2c == "" <==> Delivered(v, Client))
    && (p.c2u != "" ==> v.upstream.blocked) && (p.u2c != "" ==> v.client.blocked)
  }

  // No socket is known to hold bytes that have not been read, and none has refused a send since the last poll.
  ghost predicate Fresh(v: View) {
    !v.client.ready && !v.upstream.ready && !v.client.blocked && !v.upstream.blocked
  }

  ghost predicate NoneReady(v: View) {
    !v.client.ready && !v.upstream.ready
  }

  method FlushBoth(k: Kernel, p: Pump) returns (flow: Flow, q: Pump)
    requires k.Valid() && k.disciplined && !k.view.fault && Tracks(p, k.view) && Fresh(k.view)
    modifies k
    ensures k.Valid() && k.disciplined && k.calls <= old(k.calls)
    ensures k.view.fault == flow.Failed?
    ensures flow.Fine? ==> Tracks(q, k.view) && Flushed(q, k.view) && NoneReady(k.view)
    ensures flow.Cut? ==> k.calls == 0
  {
    var rest, at;
    q := p;
    flow, rest, at := FlushNonblocking(k, Upstream, p.c2u, p.c2uOffset);
    if !flow.Fine? {
      return;
    }
    q := q.(c2u := rest, c2uOffset := at);
    flow, rest, at := FlushNonblocking(k, Client, p.u2c, p.u2cOffset);
    q := q.(u2c := rest, u2cOffset := at);
  }

  method HalfClose(k: Kernel, p: Pump) returns (q: Pump)
    requires k.Valid() && k.disciplined && !k.view.fault && Tracks(p, k.view) && Flushed(p, k.view)
    requires NoneReady(k.view)
    modifies k
    ensures k.Valid() && k.disciplined && !k.view.fault && k.calls == old(k.calls)
    ensures Tracks(q, k.view) && Flushed(q, k.view) && NoneReady(k.view)
    ensures forall s :: At(k.view, Other(s)).eof && Delivered(k.view, s) ==> At(k.view, s).shut
  {
    q := p;
    if q.clientEof && q.c2u == "" && !q.upstreamShut {
      k.Shutdown(Upstream);
      q := q.(upstreamShut := true);
    }
    if q.upstreamEof && q.u2c == "" && !q.clientShut {
      k.Shutdown(Client);
      q := q.(clientShut := true);
    }
  }

  method ReadReady(k: Kernel, p: Pump, client: bool, upstream: bool) returns (flow: Flow, q: Pump)
    requires k.Valid() && k.disciplined && !k.view.fault && Tracks(p, k.view)
    requires client == k.view.client.ready && (client ==> !p.clientEof && p.c2u == "")
    requires upstream == k.view.upstream.ready && (upstream ==> !p.upstreamEof && p.u2c == "")
    requires !k.view.client.blocked && !k.view.upstream.blocked
    modifies k
    ensures k.Valid() && k.disciplined && k.calls <= old(k.calls)
    ensures k.view.fault == flow.Failed?
    ensures flow.Fine? ==> Tracks(q, k.view) && Fresh(k.view)
    ensures flow.Cut? ==> k.calls == 0
  {
    flow, q := Fine, p;
    var grown, eof;
    if client {
      flow, grown, eof := AppendNonblockingRead(k, Client, q.c2u);
      if !flow.Fine? {
        return;
      }
      q := q.(c2u := grown, clientEof := eof);
    }
    if upstream {
      flow, grown, eof := AppendNonblockingRead(k, Upstream, q.u2c);
      if !flow.Fine? {
        return;
      }
      q := q.(u2c := grown, upstreamEof := eof);
    }
  }

  // One call of poll, asked for what the buffers call for.
  method Wait(k: Kernel, p: Pump) returns (r: PollAnswer)
    requires k.Valid() && k.disciplined && !k.view.fault && Tracks(p, k.view) && Flushed(p, k.view)
    requires NoneReady(k.view) && k.calls > 0
    requires forall s :: At(k.view, Other(s)).eof && Delivered(k.view, s) ==> At(k.view, s).shut
    requires !(p.clientEof && p.upstreamEof && p.c2u == "" && p.u2c == "")
    modifies k
    ensures k.Valid() && k.disciplined && k.calls < old(k.calls)
    ensures k.view.fault <==> !r.Ready? && !r.PollInterrupted?
    ensures r.PollInterrupted? ==> Tracks(p, k.view) && Fresh(k.view)
    ensures r.Ready? ==>
      && Tracks(p, k.view) && !k.view.client.blocked && !k.view.upstream.blocked
      && r.client == k.view.client.ready && (r.client ==> !p.clientEof && p.c2u == "")
      && r.upstream == k.view.upstream.ready && (r.upstream ==> !p.upstreamEof && p.u2c == "")
  {
    var i := Interest(!p.clientEof && p.c2u == "", p.u2c != "", !p.upstreamEof && p.u2c == "", p.c2u != "");
    // The source retries when nothing is asked for; that never happens.
    assert i != Interest(false, false, false, false);
    WaitAllowed(p, k.view, i);
    PollTracks(p, k.view, i);
    r := k.Poll(i);
  }

  lemma WaitAllowed(p: Pump, v: View, i: Interest)
    requires !v.fault && Tracks(p, v) && Flushed(p, v) && NoneReady(v)
    requires forall s :: At(v, Other(s)).eof && Delivered(v, s) ==> At(v, s).shut
    requires i == Interest(!p.clientEof && p.c2u == "", p.u2c != "", !p.upstreamEof && p.u2c == "", p.c2u != "")
    requires i != Interest(false, false, false, false)
    ensures Allowed(v, Polled(i)) && Wanted(v) == i && Wanted(Observe(v, Polled(i))) == i
  {
  }

  lemma PollTracks(p: Pump, v: View, i: Interest)
    requires Tracks(p, v)
    ensures Tracks(p, Observe(v, Polled(i)))
    ensures forall c, u :: Tracks(p, Observe(Observe(v, Polled(i)), Reported(c, u)))
  {
  }

  /**
   The forwarding loop of forward_connect_tunnel. Whatever the kernel answers, the trace is
   disciplined, and success means that both streams are complete.
   */
  method Relay(k: Kernel) returns (outcome: Outcome)
    requires k.Valid() && k.trace == []
    modifies k
    ensures k.Valid() && Disciplined(k.trace)
    ensures outcome.Finished? ==> Complete(ViewOf(k.trace), Client) && Complete(ViewOf(k.trace), Upstream)
    ensures outcome.Broken? <==> ViewOf(k.trace).fault
    ensures outcome.Observed? ==> k.calls == 0
  {
    var p := Pump("", 0, "", 0, false, false, false, false);
    while true
      invariant k.Valid() && k.disciplined && !k.view.fault && Tracks(p, k.view) && Fresh(k.view)
      decreases k.calls
    {
      var flow;
      flow, p := FlushBoth(k, p);
      if !flow.Fine? {
        return if flow.Cut? then Observed else Broken;
      }
      p := HalfClose(k, p);
      if p.clientEof && p.upstreamEof && p.c2u == "" && p.u2c == "" {
        return Finished;
      }
      if k.calls == 0 {
        return Observed;
      }
      var r := Wait(k, p);
      if r.PollInterrupted? {
        continue;
      }
      if !r.Ready? {
        return Broken;
      }
      flow, p := ReadReady(k, p, r.client, r.upstream);
      if !flow.Fine? {
        return if flow.Cut? then Observed else Broken;
      }
    }
  }
}
