/** The ring is a linearizable bounded FIFO queue whose two sides never share a slot. */
module RingBufferSafety {
  import opened FifoHistory
  import opened Runs
  import opened RingBuffer

  // ----- Modular indices -----

  // The slot that the k-th value of a run uses.
  function Slot(k: nat, n: nat): nat
    requires n > 0
    ensures Slot(k, n) < n
  {
    if k < n then k else Slot(k - n, n)
  }

  lemma Wrap(x: nat, n: nat)
    requires x <= n && n > 0
    ensures x % n == if x == n then 0 else x
  {
  }

  lemma {:induction false} SlotDistance(a: nat, b: nat, n: nat)
    requires n > 0 && a <= b < a + n
    ensures b - a == SizeOf(Slot(a, n), Slot(b, n), n)
  {
    if a >= n {
      SlotDistance(a - n, b - n, n);
    }
  }

  lemma {:induction false} SlotSucc(k: nat, n: nat)
    requires n > 0
    ensures Slot(k + 1, n) == (Slot(k, n) + 1) % n
  {
    if k < n {
      Wrap(k + 1, n);
    } else {
      SlotSucc(k - n, n);
    }
  }

  // ----- The invariant -----

  ghost predicate LockInv<T>(s: State<T>) {
    && (forall i :: 0 <= i < |s.producers| ==> (!s.producers[i].ProdIdle? <==> s.sh.tailLock == Held(i)))
    && (forall i :: 0 <= i < |s.consumers| ==> (!s.consumers[i].ConsIdle? <==> s.sh.headLock == Held(i)))
  }

  ghost predicate SlotInv<T>(sh: Shared<T>) {
    && sh.data != []
    && sh.front <= |sh.vals| <= sh.front + Capacity(sh)
    && sh.head == Slot(sh.front, |sh.data|)
    && sh.tail == Slot(|sh.vals|, |sh.data|)
    && Stored(sh.data, sh.vals, sh.front)
    && Replay(sh.history, AtMost(Capacity(sh))) == Contents(sh.vals[sh.front..])
  }

  ghost predicate ProducerInv<T>(pc: ProdPc<T>, sh: Shared<T>)
    requires SlotInv(sh)
  {
    && (pc.ProdRoom? || pc.ProdWritten? ==> |sh.vals| < sh.front + Capacity(sh))
    && (pc.ProdWritten? ==> sh.data[sh.tail] == pc.v)
  }

  ghost predicate ConsumerInv<T>(pc: ConsPc<T>, sh: Shared<T>)
    requires SlotInv(sh)
  {
    && (pc.ConsHas? || pc.ConsRead? ==> sh.front < |sh.vals|)
    && (pc.ConsRead? ==> pc.v == sh.vals[sh.front])
  }

  ghost predicate Inv<T>(s: State<T>) {
    && LockInv(s)
    && SlotInv(s.sh)
    && (forall i :: 0 <= i < |s.producers| ==> ProducerInv(s.producers[i], s.sh))
    && (forall i :: 0 <= i < |s.consumers| ==> ConsumerInv(s.consumers[i], s.sh))
  }

  /** The full test and the empty test answer for the instant at which they load the other index. */
  lemma TestsAreExact<T>(sh: Shared<T>)
    requires SlotInv(sh)
    ensures NextTail(sh) == sh.head <==> |sh.vals| - sh.front == Capacity(sh)
    ensures sh.head == sh.tail <==> sh.front == |sh.vals|
  {
    var n := |sh.data|;
    SlotDistance(sh.front, |sh.vals|, n);
    Wrap(sh.tail + 1, n);
  }

  // ----- Producers -----

  // A failed operation changes the history only.
  lemma Logged<T>(sh: Shared<T>, op: Op<T>)
    requires SlotInv(sh) && (op.PushFull? || op.PopEmpty?)
    requires op.PushFull? ==> |sh.vals| - sh.front == Capacity(sh)
    requires op.PopEmpty? ==> sh.front == |sh.vals|
    ensures SlotInv(sh.(history := sh.history + [op]))
  {
    ReplaySnoc(sh.history, op, AtMost(Capacity(sh)));
  }

  lemma ProduceTest<T>(s: State<T>, i: nat)
    requires Inv(s) && Enabled(s, PushStep(i)) && s.producers[i].ProdLocked?
    ensures Inv(After(s, PushStep(i)))
  {
    var sh, sh' := s.sh, After(s, PushStep(i)).sh;
    TestsAreExact(sh);
    if NextTail(sh) == sh.head {
      Logged(sh, PushFull);
    }
    assert SlotInv(sh');
  }

  // The slot at `tail` holds no queued value.
  lemma ProduceWrite<T>(s: State<T>, i: nat)
    requires Inv(s) && Enabled(s, PushStep(i)) && s.producers[i].ProdRoom?
    ensures Inv(After(s, PushStep(i)))
  {
    var sh, sh' := s.sh, After(s, PushStep(i)).sh;
    forall k | sh.front <= k < |sh.vals| ensures sh'.data[Slot(k, |sh.data|)] == sh.vals[k] {
      if Slot(k, |sh.data|) == sh.tail {
        SlotDistance(k, |sh.vals|, |sh.data|);
      }
    }
  }

  // The k-th value lies in the k-th slot.
  ghost predicate Stored<T>(data: seq<T>, vals: seq<T>, front: nat)
    requires data != []
  {
    forall k :: front <= k < |vals| ==> data[Slot(k, |data|)] == vals[k]
  }

  lemma StoredNext<T>(data: seq<T>, vals: seq<T>, front: nat, v: T)
    requires data != [] && Stored(data, vals, front) && data[Slot(|vals|, |data|)] == v
    ensures Stored(data, vals + [v], front)
  {
    var more := vals + [v];
    forall k | front <= k < |more| ensures data[Slot(k, |data|)] == more[k] {
      assert k < |vals| ==> more[k] == vals[k];
    }
  }

  lemma NextTailSlot<T>(sh: Shared<T>)
    requires SlotInv(sh)
    ensures NextTail(sh) == Slot(|sh.vals| + 1, |sh.data|)
  {
    SlotSucc(|sh.vals|, |sh.data|);
  }

  // Storing the next tail is where a push takes effect.
  lemma StoreTail<T>(sh: Shared<T>, v: T, tail: nat)
    requires SlotInv(sh) && ProducerInv(ProdWritten(v), sh) && tail == Slot(|sh.vals| + 1, |sh.data|)
    ensures SlotInv(sh.(tail := tail, vals := sh.vals + [v], history := sh.history + [Push(v)]))
  {
    var sh' := sh.(tail := tail, vals := sh.vals + [v], history := sh.history + [Push(v)]);
    assert |sh'.vals| == |sh.vals| + 1 && sh'.data == sh.data && sh'.head == sh.head;
    assert Stored(sh'.data, sh'.vals, sh'.front) by { StoredNext(sh.data, sh.vals, sh.front, v); }
    ReplayPush(sh.history, sh.vals, sh.front, v, AtMost(Capacity(sh)));
  }

  lemma ProduceStore<T>(s: State<T>, i: nat)
    requires Inv(s) && Enabled(s, PushStep(i)) && s.producers[i].ProdWritten?
    ensures Inv(After(s, PushStep(i)))
  {
    var sh' := After(s, PushStep(i)).sh;
    assert ProducerInv(s.producers[i], s.sh);
    NextTailSlot(s.sh);
    StoreTail(s.sh, s.producers[i].v, NextTail(s.sh));
    forall j | 0 <= j < |s.consumers| ensures ConsumerInv(s.consumers[j], sh') {
      assert ConsumerInv(s.consumers[j], s.sh);
    }
  }

  lemma PushStepInv<T>(s: State<T>, i: nat)
    requires Inv(s) && Enabled(s, PushStep(i))
    ensures Inv(After(s, PushStep(i)))
  {
    match s.producers[i]
    case ProdLocked(_) => ProduceTest(s, i);
    case ProdRoom(_) => ProduceWrite(s, i);
    case ProdWritten(_) => ProduceStore(s, i);
    case ProdDone(_, _) =>
  }

  // ----- Consumers -----

  lemma ConsumeTest<T>(s: State<T>, i: nat)
    requires Inv(s) && Enabled(s, PopStep(i)) && s.consumers[i].ConsLocked?
    ensures Inv(After(s, PopStep(i)))
  {
    var sh, sh' := s.sh, After(s, PopStep(i)).sh;
    TestsAreExact(sh);
    if sh.head == sh.tail {
      Logged(sh, PopEmpty);
    }
    assert SlotInv(sh');
  }

  lemma NextHeadSlot<T>(sh: Shared<T>)
    requires SlotInv(sh)
    ensures NextHead(sh) == Slot(sh.front + 1, |sh.data|)
  {
    SlotSucc(sh.front, |sh.data|);
  }

  // Storing the next head is where a pop takes effect.
  lemma StoreHead<T>(sh: Shared<T>, v: T, head: nat)
    requires SlotInv(sh) && ConsumerInv(ConsRead(v), sh) && head == Slot(sh.front + 1, |sh.data|)
    ensures SlotInv(sh.(head := head, front := sh.front + 1, history := sh.history + [Pop(v)]))
  {
    var front := sh.front + 1;
    assert Replay(sh.history + [Pop(v)], AtMost(Capacity(sh))) == Contents(sh.vals[front..]) by {
      ReplaySnoc(sh.history, Pop(v), AtMost(Capacity(sh)));
      assert sh.vals[sh.front..][1..] == sh.vals[front..];
    }
  }

  lemma ConsumeStore<T>(s: State<T>, i: nat)
    requires Inv(s) && Enabled(s, PopStep(i)) && s.consumers[i].ConsRead?
    ensures Inv(After(s, PopStep(i)))
  {
    var sh' := After(s, PopStep(i)).sh;
    assert ConsumerInv(s.consumers[i], s.sh);
    NextHeadSlot(s.sh);
    StoreHead(s.sh, s.consumers[i].v, NextHead(s.sh));
    forall j | 0 <= j < |s.producers| ensures ProducerInv(s.producers[j], sh') {
      assert ProducerInv(s.producers[j], s.sh);
    }
  }

  lemma PopStepInv<T>(s: State<T>, i: nat)
    requires Inv(s) && Enabled(s, PopStep(i))
    ensures Inv(After(s, PopStep(i)))
  {
    match s.consumers[i]
    case ConsIdle =>
    case ConsLocked => ConsumeTest(s, i);
    case ConsHas => assert s.sh.data[Slot(s.sh.front, |s.sh.data|)] == s.sh.vals[s.sh.front];
    case ConsRead(_) => ConsumeStore(s, i);
    case ConsDone(_) =>
  }

  // ----- Whole runs -----

  lemma NextInv<T(!new)>(s: State<T>, s': State<T>)
    requires Inv(s) && Next(s, s')
    ensures Inv(s')
  {
    var e :| Enabled(s, e) && s' == After(s, e);
    match e
    case PushCall(i, v) =>
    case PushStep(i) => PushStepInv(s, i);
    case PopStep(i) => PopStepInv(s, i);
  }

  lemma RunInv<T(!new)>(run: seq<State<T>>, k: nat)
    requires IsRun(run) && k < |run|
    ensures Inv(run[k])
  {
    forall s: State<T> | Init(s) ensures Inv(s) {
      assert s.sh.vals[s.sh.front..] == [];
    }
    forall s: State<T>, s' | Inv(s) && Next(s, s') ensures Inv(s') {
      NextInv(s, s');
    }
    Invariant(run, Init<T>, Next<T>, Inv<T>, k);
  }

  /** The ring behaves as a sequential queue of at most `capacity_` values. */
  lemma Linearizable<T(!new)>(run: seq<State<T>>, k: nat)
    requires IsRun(run) && k < |run|
    ensures var h, cap := run[k].sh.history, Capacity(run[k].sh);
      && cap >= 0
      && Replay(h, AtMost(cap)).Contents?
      && Pushed(h) == Popped(h) + Replay(h, AtMost(cap)).q
      && |Replay(h, AtMost(cap)).q| <= cap
  {
    RunInv(run, k);
    LegalHistory(run[k].sh.history, AtMost(Capacity(run[k].sh)));
  }

  /** The slot being written is never the slot being read. */
  lemma DisjointSlots<T(!new)>(run: seq<State<T>>, k: nat, i: nat, j: nat)
    requires IsRun(run) && k < |run|
    requires i < |run[k].producers| && run[k].producers[i].ProdRoom?
    requires j < |run[k].consumers| && run[k].consumers[j].ConsHas?
    ensures run[k].sh.tail != run[k].sh.head
  {
    RunInv(run, k);
    TestsAreExact(run[k].sh);
    assert ConsumerInv(run[k].consumers[j], run[k].sh);
  }

  /** A pop that has read its slot holds the front of the sequential queue. */
  lemma PopTakesFront<T(!new)>(run: seq<State<T>>, k: nat, i: nat)
    requires IsRun(run) && k < |run| && i < |run[k].consumers| && run[k].consumers[i].ConsRead?
    requires Capacity(run[k].sh) >= 0
    ensures var q := Replay(run[k].sh.history, AtMost(Capacity(run[k].sh)));
      q.Contents? && q.q != [] && q.q[0] == run[k].consumers[i].v
  {
    RunInv(run, k);
    assert ConsumerInv(run[k].consumers[i], run[k].sh);
  }

  // The difference of two positions, from their slots.
  lemma {:induction false} SlotDifference(a: nat, b: nat, n: nat)
    requires n > 0 && a <= b
    ensures SizeOf(Slot(a, n), Slot(b, n), n) == Slot(b - a, n)
  {
    if b < a + n {
      SlotDistance(a, b, n);
    } else {
      SlotDifference(a, b - n, n);
    }
  }

  // A full turn is invisible, anything else is not.
  lemma {:induction false} SlotShift(d: nat, e: nat, n: nat)
    requires d < n
    ensures Slot(d + e, n) == d <==> Slot(e, n) == 0
  {
    if e >= n {
      SlotShift(d, e - n, n);
    }
  }

  ghost predicate Later<T>(s: State<T>, s': State<T>) {
    |s.sh.data| == |s'.sh.data| && s.sh.front <= s'.sh.front
  }

  lemma LaterInRun<T(!new)>(run: seq<State<T>>, j: nat, k: nat)
    requires IsRun(run) && j <= k < |run|
    ensures Inv(run[j]) && Inv(run[k]) && Later(run[j], run[k])
  {
    forall i | 0 <= i < |run| ensures Inv(run[i]) {
      RunInv(run, i);
    }
    forall a: State<T>, s, s' | Later(a, s) && Inv(s) && Next(s, s') ensures Later(a, s') {
      LaterNext(a, s, s');
    }
    Onwards(run, Next<T>, Inv<T>, Later<T>, j, k);
  }

  lemma LaterNext<T(!new)>(a: State<T>, s: State<T>, s': State<T>)
    requires Later(a, s) && Next(s, s')
    ensures Later(a, s')
  {
  }

  // What the two indices stand for when they are loaded at two instants.
  lemma TwoLoads<T(!new)>(run: seq<State<T>>, j: nat, k: nat)
    requires IsRun(run) && j <= k < |run|
    ensures var sh, sh' := run[j].sh, run[k].sh;
      && sh'.data != [] && sh.front <= sh'.front <= |sh'.vals| < sh'.front + |sh'.data|
      && sh.head == Slot(sh.front, |sh'.data|) && sh'.tail == Slot(|sh'.vals|, |sh'.data|)
  {
    LaterInRun(run, j, k);
  }

  /**
   `size()` loads `head_` and `tail_` at two instants. It is the number of values pushed by the
   later one less those popped by the earlier one, modulo the number of slots. It is the number
   held at the later instant exactly if the pops in between are a multiple of the slots.
   */
  lemma SizeOfTwoLoads<T(!new)>(run: seq<State<T>>, j: nat, k: nat)
    requires IsRun(run) && j <= k < |run|
    ensures run[j].sh.front <= run[k].sh.front <= |run[k].sh.vals| && run[k].sh.data != []
    ensures var sh, n, from := run[k].sh, |run[k].sh.data|, run[j].sh.front;
      var size := SizeOf(run[j].sh.head, sh.tail, n);
      && size == Slot(|sh.vals| - from, n)
      && (size == |sh.vals| - sh.front <==> Slot(sh.front - from, n) == 0)
  {
    TwoLoads(run, j, k);
    var sh, n, from := run[k].sh, |run[k].sh.data|, run[j].sh.front;
    SlotDifference(from, |sh.vals|, n);
    SlotShift(|sh.vals| - sh.front, sh.front - from, n);
  }

  /** `empty()` does the same two loads: it answers yes exactly if `size()` over them would be 0. */
  lemma EmptyOfTwoLoads<T(!new)>(run: seq<State<T>>, j: nat, k: nat)
    requires IsRun(run) && j <= k < |run|
    ensures run[j].sh.front <= |run[k].sh.vals| && run[k].sh.data != []
    ensures run[j].sh.head == run[k].sh.tail <==> Slot(|run[k].sh.vals| - run[j].sh.front, |run[k].sh.data|) == 0
    ensures run[j].sh.front == run[k].sh.front ==>
      (run[j].sh.head == run[k].sh.tail <==> run[k].sh.front == |run[k].sh.vals|)
  {
    TwoLoads(run, j, k);
    SizeOfTwoLoads(run, j, k);
  }
}
