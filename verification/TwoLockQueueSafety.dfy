/** The two-lock queue is a linearizable FIFO queue without dangling accesses. */
module TwoLockQueueSafety {
  import opened Basics
  import opened Counting
  import opened FifoHistory
  import opened Runs
  import opened TwoLockQueue

  predicate HoldsTail<T>(pc: PushPc<T>) {
    !pc.PushIdle? && !pc.HasNode?
  }

  predicate HoldsHead<T>(pc: PopPc<T>) {
    !pc.PopIdle? && !pc.Unlocked?
  }

  predicate OwnsNode<T>(pc: PushPc<T>) {
    !pc.PushIdle? && !pc.TailWritten?
  }

  predicate OwnsPrev<T>(pc: PopPc<T>) {
    pc.Advanced? || pc.Unlocked?
  }

  ghost predicate LockInv<T>(s: State<T>) {
    && (forall i :: 0 <= i < |s.pushers| ==> (HoldsTail(s.pushers[i]) <==> s.sh.tailLock == Some(i)))
    && (forall i :: 0 <= i < |s.poppers| ==> (HoldsHead(s.poppers[i]) <==> s.sh.headLock == Some(i)))
  }

  // Every queued value lies in its node, which points to the next node.
  ghost predicate Chained<T>(heap: map<nat, Node<T>>, chain: seq<nat>, vals: seq<T>, front: nat)
    requires |chain| == |vals| + 1
  {
    forall k :: front <= k < |vals| ==>
      chain[k] in heap && heap[chain[k]] == Node(Some(vals[k]), Some(chain[k + 1]))
  }

  lemma ChainedNext<T>(heap: map<nat, Node<T>>, chain: seq<nat>, vals: seq<T>, front: nat, v: T, p: nat)
    requires |chain| == |vals| + 1 && Chained(heap, chain, vals, front)
    requires chain[|vals|] in heap && heap[chain[|vals|]] == Node(Some(v), Some(p))
    ensures Chained(heap, chain + [p], vals + [v], front)
  {
  }

  // The linked nodes hold the values that are still queued.
  ghost predicate ListInv<T>(sh: Shared<T>) {
    && |sh.chain| == |sh.vals| + 1
    && sh.front <= |sh.vals|
    && sh.tail == sh.chain[|sh.vals|]
    && sh.tail in sh.heap
    && (forall a, b :: 0 <= a < b < |sh.chain| ==> sh.chain[a] != sh.chain[b])
    && (forall a :: 0 <= a < |sh.chain| ==> sh.chain[a] < sh.nextId)
    && Chained(sh.heap, sh.chain, sh.vals, sh.front)
    && (sh.headLock.None? ==> sh.head == Some(sh.chain[sh.front]))
    && Replay(sh.history, Unbounded) == Contents(sh.vals[sh.front..])
  }

  ghost predicate PusherInv<T>(pc: PushPc<T>, sh: Shared<T>)
    requires ListInv(sh)
  {
    && (OwnsNode(pc) ==>
          pc.p < sh.nextId && pc.p !in sh.chain && pc.p in sh.heap && sh.heap[pc.p] == Node(None, None))
    && (pc.DataWritten? ==> sh.heap[sh.tail].data == Some(pc.v))
    && (pc.NextWritten? ==> sh.heap[sh.tail] == Node(Some(pc.v), Some(pc.p)))
  }

  ghost predicate PopperInv<T>(pc: PopPc<T>, sh: Shared<T>)
    requires ListInv(sh)
  {
    && (HoldsHead(pc) && !pc.Detached? ==> sh.head == Some(sh.chain[sh.front]))
    && (pc.GotTail? ==> sh.front == pc.from <= pc.seen <= |sh.vals| && pc.t == sh.chain[pc.seen])
    && (pc.HasData? || pc.Detached? ==> sh.front < |sh.vals| && pc.v == sh.vals[sh.front])
    && (pc.Detached? ==> pc.prev == sh.chain[sh.front])
    && (OwnsPrev(pc) ==>
          && pc.prev in sh.heap && pc.prev in sh.chain
          && forall k :: sh.front <= k < |sh.chain| ==> sh.chain[k] != pc.prev)
  }

  ghost predicate Inv<T>(s: State<T>) {
    && LockInv(s)
    && ListInv(s.sh)
    && (forall i :: 0 <= i < |s.pushers| ==> PusherInv(s.pushers[i], s.sh))
    && (forall i :: 0 <= i < |s.poppers| ==> PopperInv(s.poppers[i], s.sh))
    && (forall i, j :: 0 <= i < j < |s.pushers| && OwnsNode(s.pushers[i]) && OwnsNode(s.pushers[j]) ==>
          s.pushers[i].p != s.pushers[j].p)
    && (forall i, j :: 0 <= i < j < |s.poppers| && OwnsPrev(s.poppers[i]) && OwnsPrev(s.poppers[j]) ==>
          s.poppers[i].prev != s.poppers[j].prev)
  }

  lemma StepIsSafe<T>(s: State<T>, e: Step<T>)
    requires Inv(s) && Enabled(s, e)
    ensures Safe(s, e)
  {
    if e.PopStep? && s.poppers[e.i].GotTail? {
      var sh := s.sh;
      assert PopperInv(s.poppers[e.i], sh);
      if sh.front < |sh.vals| {
        assert sh.heap[sh.chain[sh.front]] == Node(Some(sh.vals[sh.front]), Some(sh.chain[sh.front + 1]));
      }
    }
  }

  lemma PushCallInv<T>(s: State<T>, i: nat, v: T)
    requires Inv(s) && Enabled(s, PushCall(i, v))
    ensures Inv(After(s, PushCall(i, v)))
  {
    var s' := After(s, PushCall(i, v));
    assert s'.sh.heap == s.sh.heap[s.sh.nextId := Node(None, None)];
    assert ListInv(s'.sh);
    forall j | 0 <= j < |s.pushers| && j != i ensures PusherInv(s'.pushers[j], s'.sh) {
      assert PusherInv(s.pushers[j], s.sh);
    }
    forall j | 0 <= j < |s.poppers| ensures PopperInv(s'.poppers[j], s'.sh) {
      assert PopperInv(s.poppers[j], s.sh);
    }
  }

  lemma PushLockInv<T>(s: State<T>, i: nat)
    requires Inv(s) && Enabled(s, PushStep(i)) && (s.pushers[i].HasNode? || s.pushers[i].TailWritten?)
    ensures Inv(After(s, PushStep(i)))
  {
    var s' := After(s, PushStep(i));
    assert PusherInv(s'.pushers[i], s'.sh);
  }

  // The pusher that holds tail_mtx writes only the dummy node.
  lemma PushWriteInv<T>(s: State<T>, i: nat)
    requires Inv(s) && Enabled(s, PushStep(i)) && (s.pushers[i].PushLocked? || s.pushers[i].DataWritten?)
    ensures Inv(After(s, PushStep(i)))
  {
    var s' := After(s, PushStep(i));
    assert s'.sh.heap == s.sh.heap[s.sh.tail := s'.sh.heap[s.sh.tail]];
    assert ListInv(s'.sh);
    assert PusherInv(s'.pushers[i], s'.sh);
    forall j | 0 <= j < |s.pushers| && j != i ensures PusherInv(s'.pushers[j], s'.sh) {
      assert PusherInv(s.pushers[j], s.sh) && !HoldsTail(s.pushers[j]);
    }
    forall j | 0 <= j < |s.poppers| ensures PopperInv(s'.poppers[j], s'.sh) {
      assert PopperInv(s.poppers[j], s.sh);
    }
  }

  // Linking the new dummy is where a push takes effect.
  lemma LinkList<T>(sh: Shared<T>, v: T, p: nat)
    requires ListInv(sh) && PusherInv(NextWritten(v, p), sh)
    ensures ListInv(sh.(tail := p, chain := sh.chain + [p], vals := sh.vals + [v], history := sh.history + [Push(v)]))
  {
    ReplayPush(sh.history, sh.vals, sh.front, v, Unbounded);
    ChainedNext(sh.heap, sh.chain, sh.vals, sh.front, v, p);
  }

  lemma PushLinkOthers<T>(s: State<T>, i: nat)
    requires Inv(s) && Enabled(s, PushStep(i)) && s.pushers[i].NextWritten? && ListInv(After(s, PushStep(i)).sh)
    ensures var s' := After(s, PushStep(i));
      forall j :: 0 <= j < |s.pushers| && j != i ==> PusherInv(s'.pushers[j], s'.sh)
    ensures var s' := After(s, PushStep(i));
      forall j :: 0 <= j < |s.poppers| ==> PopperInv(s'.poppers[j], s'.sh)
  {
    var s' := After(s, PushStep(i));
    assert PusherInv(s.pushers[i], s.sh);
    forall j | 0 <= j < |s.pushers| && j != i ensures PusherInv(s'.pushers[j], s'.sh) {
      assert PusherInv(s.pushers[j], s.sh) && !HoldsTail(s.pushers[j]);
    }
    forall j | 0 <= j < |s.poppers| ensures PopperInv(s'.poppers[j], s'.sh) {
      assert PopperInv(s.poppers[j], s.sh);
    }
  }

  lemma PushLinkInv<T>(s: State<T>, i: nat)
    requires Inv(s) && Enabled(s, PushStep(i)) && s.pushers[i].NextWritten?
    ensures Inv(After(s, PushStep(i)))
  {
    assert PusherInv(s.pushers[i], s.sh);
    LinkList(s.sh, s.pushers[i].v, s.pushers[i].p);
    PushLinkOthers(s, i);
  }

  lemma PushStepInv<T>(s: State<T>, i: nat)
    requires Inv(s) && Enabled(s, PushStep(i)) && Safe(s, PushStep(i))
    ensures Inv(After(s, PushStep(i)))
  {
    match s.pushers[i]
    case HasNode(_, _) => PushLockInv(s, i);
    case PushLocked(_, _) => PushWriteInv(s, i);
    case DataWritten(_, _) => PushWriteInv(s, i);
    case NextWritten(_, _) => PushLinkInv(s, i);
    case TailWritten(_) => PushLockInv(s, i);
  }

  predicate SameNodes<T(==)>(sh: Shared<T>, sh': Shared<T>) {
    && sh'.heap == sh.heap && sh'.nextId == sh.nextId && sh'.tail == sh.tail
    && sh'.chain == sh.chain && sh'.vals == sh.vals && sh'.front == sh.front
  }

  lemma OthersKeep<T>(s: State<T>, s': State<T>, i: nat)
    requires Inv(s) && ListInv(s'.sh) && SameNodes(s.sh, s'.sh)
    requires i < |s.poppers| == |s'.poppers| && s'.pushers == s.pushers
    requires forall j :: 0 <= j < |s.poppers| && j != i ==> s'.poppers[j] == s.poppers[j]
    requires s.sh.head == s'.sh.head || HoldsHead(s.poppers[i])
    ensures forall j :: 0 <= j < |s.poppers| && j != i ==> PopperInv(s'.poppers[j], s'.sh)
    ensures forall j :: 0 <= j < |s.pushers| ==> PusherInv(s'.pushers[j], s'.sh)
  {
    forall j | 0 <= j < |s.poppers| && j != i ensures PopperInv(s'.poppers[j], s'.sh) {
      assert PopperInv(s.poppers[j], s.sh);
    }
    forall j | 0 <= j < |s.pushers| ensures PusherInv(s'.pushers[j], s'.sh) {
      assert PusherInv(s.pushers[j], s.sh);
    }
  }

  // Steps of a popper that change neither the nodes nor what is queued.
  lemma PopQuietInv<T>(s: State<T>, i: nat)
    requires Inv(s) && Enabled(s, PopStep(i)) && Safe(s, PopStep(i))
    requires s.poppers[i].PopIdle? || s.poppers[i].GotTail? || s.poppers[i].HasData? || s.poppers[i].Advanced?
    ensures Inv(After(s, PopStep(i)))
  {
    var s' := After(s, PopStep(i));
    PopQuietLocal(s, i);
    assert ListInv(s'.sh);
    OthersKeep(s, s', i);
  }

  lemma PopQuietLocal<T>(s: State<T>, i: nat)
    requires Inv(s) && Enabled(s, PopStep(i)) && Safe(s, PopStep(i))
    requires s.poppers[i].PopIdle? || s.poppers[i].GotTail? || s.poppers[i].HasData? || s.poppers[i].Advanced?
    ensures PopperInv(After(s, PopStep(i)).poppers[i], s.sh)
  {
    var sh := s.sh;
    assert PopperInv(s.poppers[i], sh);
    if sh.front < |sh.vals| {
      assert sh.heap[sh.chain[sh.front]] == Node(Some(sh.vals[sh.front]), Some(sh.chain[sh.front + 1]));
    }
  }

  // Reading `tail` decides whether the pop fails.
  lemma PopReadTailInv<T>(s: State<T>, i: nat)
    requires Inv(s) && Enabled(s, PopStep(i)) && s.poppers[i].PopLocked?
    ensures Inv(After(s, PopStep(i)))
  {
    var s' := After(s, PopStep(i));
    assert PopperInv(s.poppers[i], s.sh);
    assert Replay(s'.sh.history, Unbounded) == Contents(s.sh.vals[s.sh.front..]) by {
      if s.sh.front == |s.sh.vals| {
        ReplaySnoc(s.sh.history, PopEmpty, Unbounded);
      }
    }
    OthersKeep(s, s', i);
  }

  // Moving `head` on is where a successful pop takes effect.
  lemma PopAdvanceList<T>(s: State<T>, i: nat)
    requires Inv(s) && Enabled(s, PopStep(i)) && s.poppers[i].Detached?
    ensures ListInv(After(s, PopStep(i)).sh)
  {
    var sh, sh' := s.sh, After(s, PopStep(i)).sh;
    assert PopperInv(s.poppers[i], sh);
    ReplaySnoc(sh.history, Pop(s.poppers[i].v), Unbounded);
    assert sh.vals[sh.front..][1..] == sh'.vals[sh'.front..];
  }

  lemma PopAdvanceOthers<T>(s: State<T>, i: nat)
    requires Inv(s) && Enabled(s, PopStep(i)) && s.poppers[i].Detached? && ListInv(After(s, PopStep(i)).sh)
    ensures var s' := After(s, PopStep(i));
      forall j :: 0 <= j < |s.poppers| && j != i ==> PopperInv(s'.poppers[j], s'.sh)
    ensures var s' := After(s, PopStep(i));
      forall j :: 0 <= j < |s.pushers| ==> PusherInv(s'.pushers[j], s'.sh)
  {
    var s' := After(s, PopStep(i));
    assert PopperInv(s.poppers[i], s.sh);
    forall j | 0 <= j < |s.poppers| && j != i ensures PopperInv(s'.poppers[j], s'.sh) {
      assert PopperInv(s.poppers[j], s.sh) && !HoldsHead(s.poppers[j]);
    }
    forall j | 0 <= j < |s.pushers| ensures PusherInv(s'.pushers[j], s'.sh) {
      assert PusherInv(s.pushers[j], s.sh);
    }
  }

  lemma PopAdvanceInv<T>(s: State<T>, i: nat)
    requires Inv(s) && Enabled(s, PopStep(i)) && s.poppers[i].Detached?
    ensures Inv(After(s, PopStep(i)))
  {
    var s' := After(s, PopStep(i));
    PopAdvanceList(s, i);
    PopAdvanceOthers(s, i);
    assert PopperInv(s.poppers[i], s.sh);
    assert PopperInv(s'.poppers[i], s'.sh);
    var prev := s.poppers[i].prev;
    forall j | 0 <= j < |s.poppers| && j != i && OwnsPrev(s.poppers[j]) ensures s.poppers[j].prev != prev {
      assert PopperInv(s.poppers[j], s.sh);
    }
  }

  // The freed node is linked nowhere and owned by nobody else.
  lemma PopFreeOthers<T>(s: State<T>, i: nat)
    requires Inv(s) && Enabled(s, PopStep(i)) && s.poppers[i].Unlocked? && ListInv(After(s, PopStep(i)).sh)
    ensures var s' := After(s, PopStep(i));
      forall j :: 0 <= j < |s.poppers| && j != i ==> PopperInv(s'.poppers[j], s'.sh)
    ensures var s' := After(s, PopStep(i));
      forall j :: 0 <= j < |s.pushers| ==> PusherInv(s'.pushers[j], s'.sh)
  {
    var s' := After(s, PopStep(i));
    assert PopperInv(s.poppers[i], s.sh);
    forall j | 0 <= j < |s.poppers| && j != i ensures PopperInv(s'.poppers[j], s'.sh) {
      assert PopperInv(s.poppers[j], s.sh);
    }
    forall j | 0 <= j < |s.pushers| ensures PusherInv(s'.pushers[j], s'.sh) {
      assert PusherInv(s.pushers[j], s.sh);
    }
  }

  // The list does without a node that a popper owns.
  lemma FreedList<T>(sh: Shared<T>, pc: PopPc<T>)
    requires ListInv(sh) && pc.Unlocked? && PopperInv(pc, sh)
    ensures forall calls :: ListInv(sh.(heap := sh.heap - {pc.prev}, calls := calls))
  {
    var heap := sh.heap - {pc.prev};
    assert sh.chain[|sh.vals|] != pc.prev;
    forall k | sh.front <= k < |sh.vals|
      ensures sh.chain[k] in heap && heap[sh.chain[k]] == Node(Some(sh.vals[k]), Some(sh.chain[k + 1]))
    {
      assert sh.chain[k] != pc.prev;
    }
  }

  lemma PopFreeInv<T>(s: State<T>, i: nat)
    requires Inv(s) && Enabled(s, PopStep(i)) && s.poppers[i].Unlocked?
    ensures Inv(After(s, PopStep(i)))
  {
    FreedList(s.sh, s.poppers[i]);
    PopFreeOthers(s, i);
  }

  lemma PopStepInv<T>(s: State<T>, i: nat)
    requires Inv(s) && Enabled(s, PopStep(i)) && Safe(s, PopStep(i))
    ensures Inv(After(s, PopStep(i)))
  {
    match s.poppers[i]
    case PopLocked => PopReadTailInv(s, i);
    case Detached(_, _) => PopAdvanceInv(s, i);
    case Unlocked(_, _) => PopFreeInv(s, i);
    case _ => PopQuietInv(s, i);
  }

  lemma InitInv<T>(s: State<T>)
    requires Init(s)
    ensures Inv(s)
  {
    assert Replay(s.sh.history, Unbounded) == Contents(s.sh.vals[s.sh.front..]);
  }

  lemma RunInv<T(!new)>(run: seq<State<T>>, k: nat)
    requires IsRun(run) && k < |run|
    ensures Inv(run[k])
  {
    forall s: State<T> | Init(s) ensures Inv(s) {
      InitInv(s);
    }
    forall s: State<T>, s' | Inv(s) && Next(s, s') ensures Inv(s') {
      NextInv(s, s');
    }
    Invariant(run, Init<T>, Next<T>, Inv<T>, k);
  }

  lemma NextInv<T(!new)>(s: State<T>, s': State<T>)
    requires Inv(s) && Next(s, s')
    ensures Inv(s')
  {
    var e :| Enabled(s, e) && Safe(s, e) && s' == After(s, e);
    match e
    case PushCall(i, v) => PushCallInv(s, i, v);
    case PushStep(i) => PushStepInv(s, i);
    case PopStep(i) => PopStepInv(s, i);
  }

  /** The queue behaves as a sequential FIFO: pops are a prefix of pushes, the rest is linked. */
  lemma Linearizable<T(!new)>(run: seq<State<T>>, k: nat)
    requires IsRun(run) && k < |run|
    ensures var h := run[k].sh.history;
      && Replay(h, Unbounded).Contents?
      && Pushed(h) == Popped(h) + Replay(h, Unbounded).q
  {
    RunInv(run, k);
    LegalHistory(run[k].sh.history, Unbounded);
  }

  /** No thread ever follows a missing or freed node. */
  lemma NoDanglingAccess<T(!new)>(run: seq<State<T>>, k: nat, e: Step<T>)
    requires IsRun(run) && k < |run| && Enabled(run[k], e)
    ensures Safe(run[k], e)
  {
    RunInv(run, k);
    StepIsSafe(run[k], e);
  }

  // The pop has read `tail` while the queue was empty, and has not returned yet.
  predicate Failing<T>(pc: PopPc<T>) {
    pc.GotTail? && pc.seen == pc.from
  }

  /** A pop gives up exactly if the queue was empty when it read `tail`. */
  lemma FailedPopSawEmpty<T(!new)>(run: seq<State<T>>, k: nat, i: nat)
    requires IsRun(run) && k < |run| && i < |run[k].poppers| && run[k].poppers[i].GotTail?
    ensures run[k].sh.head.Some?
    ensures run[k].sh.head.value == run[k].poppers[i].t <==> Failing(run[k].poppers[i])
  {
    RunInv(run, k);
    GivesUpExactly(run[k], i);
  }

  lemma GivesUpExactly<T>(s: State<T>, i: nat)
    requires Inv(s) && i < |s.poppers| && s.poppers[i].GotTail?
    ensures s.sh.head.Some? && (s.sh.head.value == s.poppers[i].t <==> Failing(s.poppers[i]))
  {
    assert PopperInv(s.poppers[i], s.sh);
  }

  ghost predicate AnswerInv<T>(s: State<T>) {
    Empties(s.sh.history) == s.sh.failures + CountIf(s.poppers, Failing<T>)
  }

  lemma AnswerPush<T>(s: State<T>, i: nat)
    requires Inv(s) && AnswerInv(s) && Enabled(s, PushStep(i)) && Safe(s, PushStep(i))
    ensures AnswerInv(After(s, PushStep(i)))
  {
    if s.pushers[i].NextWritten? {
      EmptiesSnoc(s.sh.history, Push(s.pushers[i].v));
    }
  }

  lemma AnswerPop<T>(s: State<T>, i: nat)
    requires Inv(s) && AnswerInv(s) && Enabled(s, PopStep(i)) && Safe(s, PopStep(i))
    ensures AnswerInv(After(s, PopStep(i)))
  {
    var (pc, sh) := PopMove(s.poppers[i], s.sh, i);
    CountUpdate(s.poppers, i, pc, Failing<T>);
    match s.poppers[i]
    case PopLocked => EmptiesSnoc(s.sh.history, PopEmpty);
    case GotTail(_, _, _) => GivesUpExactly(s, i);
    case Detached(v, _) => EmptiesSnoc(s.sh.history, Pop(v));
    case _ =>
  }

  ghost predicate AnsweredInv<T>(s: State<T>) {
    Inv(s) && AnswerInv(s)
  }

  lemma AnswerNext<T(!new)>(s: State<T>, s': State<T>)
    requires AnsweredInv(s) && Next(s, s')
    ensures AnsweredInv(s')
  {
    NextInv(s, s');
    var e :| Enabled(s, e) && Safe(s, e) && s' == After(s, e);
    match e
    case PushCall(_, _) =>
    case PushStep(i) => AnswerPush(s, i);
    case PopStep(i) => AnswerPop(s, i);
  }

  lemma AnswerInit<T>(s: State<T>)
    requires Init(s)
    ensures AnsweredInv(s)
  {
    InitInv(s);
    CountNone(s.poppers, Failing<T>);
  }

  /** Every pop that returned without a value, or is about to, is one failed pop of the sequential queue. */
  lemma FailuresAreEmptyPops<T(!new)>(run: seq<State<T>>, k: nat)
    requires IsRun(run) && k < |run|
    ensures Empties(run[k].sh.history) == run[k].sh.failures + CountIf(run[k].poppers, Failing<T>)
  {
    forall s: State<T> | Init(s) ensures AnsweredInv(s) {
      AnswerInit(s);
    }
    forall s: State<T>, s' | AnsweredInv(s) && Next(s, s') ensures AnsweredInv(s') {
      AnswerNext(s, s');
    }
    Invariant(run, Init<T>, Next<T>, AnsweredInv<T>, k);
  }

  /** A successful pop returns the value at the front of the sequential queue. */
  lemma PopTakesFront<T(!new)>(run: seq<State<T>>, k: nat, i: nat)
    requires IsRun(run) && k < |run| && i < |run[k].poppers| && run[k].poppers[i].Detached?
    ensures var q := Replay(run[k].sh.history, Unbounded);
      q.Contents? && q.q != [] && q.q[0] == run[k].poppers[i].v
  {
    RunInv(run, k);
    assert PopperInv(run[k].poppers[i], run[k].sh);
  }

  // The node whose fields a thread is about to read or write without the other side's lock.
  function PushTarget<T>(pc: PushPc<T>, sh: Shared<T>): Option<nat> {
    if pc.PushLocked? || pc.DataWritten? then Some(sh.tail) else None
  }

  function PopTarget<T>(pc: PopPc<T>, sh: Shared<T>): Option<nat> {
    match pc
    case GotTail(t, _, _) => if sh.head.Some? && sh.head.value != t then sh.head else None
    case Detached(_, prev) => Some(prev)
    case Unlocked(_, prev) => Some(prev)
    case _ => None
  }

  /** Poppers touch only nodes before the dummy, pushers write only the dummy. */
  lemma DisjointTargets<T(!new)>(run: seq<State<T>>, k: nat, i: nat, j: nat)
    requires IsRun(run) && k < |run|
    requires i < |run[k].pushers| && PushTarget(run[k].pushers[i], run[k].sh).Some?
    requires j < |run[k].poppers| && PopTarget(run[k].poppers[j], run[k].sh).Some?
    ensures PushTarget(run[k].pushers[i], run[k].sh) == Some(run[k].sh.tail)
    ensures PopTarget(run[k].poppers[j], run[k].sh) != Some(run[k].sh.tail)
  {
    RunInv(run, k);
    assert PopperInv(run[k].poppers[j], run[k].sh);
  }
}
