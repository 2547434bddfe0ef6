/**
 The idle timer: a map of live entries, and a heap of deadlines from which stale nodes are
 removed only when they come up or when too many have piled up.
 */
module TimerHeap {
  import opened Basics

  const COMPACT_MIN: nat := 4096
  const COMPACT_RATIO: nat := 4
  const NS_PER_MS: int := 1_000_000
  const INT_MAX: int := 0x7FFF_FFFF

  datatype Node = Node(id: int, expires: int, version: nat)

  // A callback is given by the ids that it removes from the timer.
  datatype Entry = Entry(expires: int, callback: seq<int>, version: nat)

  datatype Firing = Firing(id: int, deadline: int, clock: int)

  function NodeOf(id: int, e: Entry): Node {
    Node(id, e.expires, e.version)
  }

  predicate Earliest(heap: seq<Node>, k: nat) {
    k < |heap| && forall j :: 0 <= j < |heap| ==> heap[k].expires <= heap[j].expires
  }

  function Without(heap: seq<Node>, k: nat): seq<Node>
    requires k < |heap|
  {
    heap[..k] + heap[k + 1..]
  }

  // Every live entry can be found through the heap.
  ghost predicate Covered(heap: seq<Node>, entries: map<int, Entry>) {
    forall id :: id in entries ==> NodeOf(id, entries[id]) in heap
  }

  lemma NothingCovered(entries: map<int, Entry>)
    requires Covered([], entries)
    ensures entries == map[]
  {
    if entries.Keys != {} {
      var id := Nonempty(entries.Keys);
    }
  }

  predicate Bounded(heap: seq<Node>, entries: map<int, Entry>) {
    |heap| < COMPACT_MIN || |heap| <= COMPACT_RATIO * |entries|
  }

  // ----- What tick must do, told on the map of entries alone -----

  // The ids that the callbacks of these firings remove.
  function RemovedBy(entries: map<int, Entry>, fired: seq<Firing>): set<int> {
    set i, id | 0 <= i < |fired| && fired[i].id in entries && id in entries[fired[i].id].callback :: id
  }

  function Ids(fired: seq<Firing>): set<int> {
    set i | 0 <= i < |fired| :: fired[i].id
  }

  // Each firing was due, in deadline order, once, and not removed by an earlier callback.
  ghost predicate InOrder(entries: map<int, Entry>, fired: seq<Firing>) {
    && (forall i :: 0 <= i < |fired| ==>
          fired[i].id in entries && fired[i].deadline == entries[fired[i].id].expires <= fired[i].clock)
    && (forall i, j :: 0 <= i < j < |fired| ==>
          fired[i].deadline <= fired[j].deadline && fired[i].clock <= fired[j].clock
          && fired[i].id != fired[j].id && fired[j].id !in entries[fired[i].id].callback)
  }

  class Timer {
    var heap: seq<Node>              // the nodes of the priority queue, in any order
    var entries: map<int, Entry>
    var now: int                     // the last reading of steady_clock
    ghost var fired: seq<Firing>     // every callback that was due, in order

    ghost predicate Valid()
      reads this
    {
      && Covered(heap, entries)
      && (forall id :: id in entries ==> entries[id].expires <= now + INT_MAX * NS_PER_MS)
    }

    constructor ()
      ensures Valid() && heap == [] && entries == map[] && fired == []
    {
      heap, entries, now, fired := [], map[], 0, [];
    }

    // The clock: any reading that is not before the last one.
    method Now() returns (t: int)
      modifies this`now
      ensures t == now >= old(now)
    {
      t := *;
      if t < now {
        t := now;
      }
      now := t;
    }

    // priority_queue::top, with any choice among equal deadlines.
    method Top() returns (k: nat)
      requires heap != []
      ensures Earliest(heap, k)
    {
      k := 0;
      for i := 1 to |heap|
        invariant k < i
        invariant forall j :: 0 <= j < i ==> heap[k].expires <= heap[j].expires
      {
        if heap[i].expires < heap[k].expires {
          k := i;
        }
      }
    }

    method MaybeCompactHeap()
      requires Covered(heap, entries)
      modifies this`heap
      ensures Covered(heap, entries)
      ensures |heap| <= |old(heap)| && Bounded(heap, entries)
      ensures if Bounded(old(heap), entries) then heap == old(heap) else |heap| == |entries|
    {
      if |heap| < COMPACT_MIN {
        return;
      }
      if |entries| == 0 {
        heap := [];
        return;
      }
      if |heap| <= |entries| * COMPACT_RATIO {
        return;
      }
      var rebuilt: seq<Node>, ids: set<int> := [], entries.Keys;
      while ids != {}
        invariant ids <= entries.Keys && |rebuilt| + |ids| == |entries|
        invariant forall id :: id in entries && id !in ids ==> NodeOf(id, entries[id]) in rebuilt
        decreases |ids|
      {
        ghost var some := Nonempty(ids);
        var id :| id in ids;
        rebuilt := rebuilt + [NodeOf(id, entries[id])];
        ids := ids - {id};
      }
      heap := rebuilt;
    }

    method Add(id: int, timeoutMs: int, callback: seq<int>)
      requires Valid() && -INT_MAX - 1 <= timeoutMs <= INT_MAX
      modifies this`heap, this`entries, this`now
      ensures Valid() && old(now) <= now
      ensures id < 0 ==> entries == old(entries) && heap == old(heap)
      ensures id >= 0 ==>
        && id in entries && entries == old(entries)[id := entries[id]]
        && entries[id].expires == now + timeoutMs * NS_PER_MS && entries[id].callback == callback
        && entries[id].version == ((if id in old(entries) then old(entries)[id].version else 0) + 1) % WORD
        && Bounded(heap, entries)
    {
      if id < 0 {
        return;
      }
      var t := Now();
      var version := ((if id in entries then entries[id].version else 0) + 1) % WORD;
      var e := Entry(t + timeoutMs * NS_PER_MS, callback, version);
      entries := entries[id := e];
      heap := heap + [NodeOf(id, e)];
      MaybeCompactHeap();
    }

    method Adjust(id: int, timeoutMs: int)
      requires Valid() && -INT_MAX - 1 <= timeoutMs <= INT_MAX
      modifies this`heap, this`entries, this`now
      ensures Valid() && old(now) <= now
      ensures id !in old(entries) ==> entries == old(entries) && heap == old(heap)
      ensures id in old(entries) ==>
        && id in entries && entries == old(entries)[id := entries[id]]
        && entries[id].expires == now + timeoutMs * NS_PER_MS
        && entries[id].callback == old(entries)[id].callback
        && entries[id].version == (old(entries)[id].version + 1) % WORD
        && Bounded(heap, entries)
    {
      if id !in entries {
        return;
      }
      var t := Now();
      var e := Entry(t + timeoutMs * NS_PER_MS, entries[id].callback, (entries[id].version + 1) % WORD);
      entries := entries[id := e];
      heap := heap + [NodeOf(id, e)];
      MaybeCompactHeap();
    }

    method Remove(id: int)
      requires Valid()
      modifies this`heap, this`entries
      ensures Valid() && entries == old(entries) - {id}
      ensures |heap| <= |old(heap)| && Bounded(heap, entries)
    {
      entries := entries - {id};
      MaybeCompactHeap();
    }

    // Leaves the earliest node that belongs to a live entry on top and returns where it is.
    method DiscardStaleTop() returns (top: nat)
      requires Valid()
      modifies this`heap
      ensures Valid() && |heap| <= |old(heap)|
      ensures heap == [] ==> entries == map[]
      ensures heap != [] ==>
        && Earliest(heap, top) && heap[top].id in entries
        && heap[top] == NodeOf(heap[top].id, entries[heap[top].id])
        && forall id :: id in entries ==> heap[top].expires <= entries[id].expires
    {
      top := 0;
      while heap != []
        invariant Valid() && |heap| <= |old(heap)|
        decreases |heap|
      {
        top := Top();
        var node := heap[top];
        if node.id in entries && entries[node.id].version == node.version
          && entries[node.id].expires == node.expires {
          assert forall id :: id in entries ==> NodeOf(id, entries[id]) in heap;
          return;
        }
        PopKeepsCover(top);
        heap := Without(heap, top);
      }
      NothingCovered(entries);
    }

    // Dropping a stale node uncovers nothing.
    lemma PopKeepsCover(k: nat)
      requires k < |heap| && Covered(heap, entries)
      ensures Covered(Without(heap, k), entries - {heap[k].id})
      ensures (forall id :: id in entries ==> NodeOf(id, entries[id]) != heap[k]) ==>
        Covered(Without(heap, k), entries)
    {
      assert heap == heap[..k] + [heap[k]] + heap[k + 1..];
    }

    // Runs a callback, which only removes entries.
    method RunCallback(callback: seq<int>)
      requires Valid()
      modifies this`heap, this`entries
      ensures Valid() && |heap| <= |old(heap)|
      ensures entries == old(entries) - (set id | id in callback)
    {
      for i := 0 to |callback|
        invariant Valid() && |heap| <= |old(heap)|
        invariant entries == old(entries) - (set id | id in callback[..i])
      {
        Remove(callback[i]);
      }
      assert callback[..|callback|] == callback;
    }

    // Takes the top node, which belongs to a live entry, and its entry out and runs the callback.
    method Fire(top: nat)
      requires Valid() && top < |heap| && heap[top].id in entries
      modifies this`heap, this`entries
      ensures Valid() && |heap| < |old(heap)|
      ensures entries == old(entries) - {old(heap)[top].id} - (set id | id in old(entries)[old(heap)[top].id].callback)
    {
      var current := heap[top];
      var callback := entries[current.id].callback;
      PopKeepsCover(top);
      entries := entries - {current.id};
      heap := Without(heap, top);
      RunCallback(callback);
    }

    /**
     Fires every entry that is due. The new firings are in deadline order, exactly they and
     what their callbacks removed are gone, and nothing left is due at the last reading.
     */
    method Tick()
      requires Valid()
      modifies this
      ensures Valid() && old(now) <= now && |heap| <= |old(heap)|
      ensures old(fired) <= fired
      ensures var due := fired[|old(fired)|..];
        && InOrder(old(entries), due)
        && entries == old(entries) - Ids(due) - RemovedBy(old(entries), due)
      ensures forall id :: id in entries ==> entries[id].expires > now
    {
      ghost var was, due := entries, [];
      while true
        invariant Valid() && old(now) <= now && |heap| <= |old(heap)|
        invariant fired == old(fired) + due && InOrder(was, due)
        invariant entries == was - Ids(due) - RemovedBy(was, due)
        invariant forall i :: 0 <= i < |due| ==> due[i].clock <= now
        invariant forall i, id :: 0 <= i < |due| && id in entries ==> due[i].deadline <= entries[id].expires
        decreases |heap|
      {
        var top := DiscardStaleTop();
        if heap == [] {
          break;
        }
        var current := heap[top];
        var t := Now();
        if current.expires > t {
          break;
        }
        // The source looks for a missing entry here; discard_stale_top rules that out.
        ghost var f := Firing(current.id, current.expires, t);
        FireNext(was, due, f);
        Fire(top);
        due, fired := due + [f], fired + [f];
      }
    }

    /**
     Fires what is due and then tells how long to sleep: -1 without live entries, otherwise
     the time to the earliest deadline, rounded down to milliseconds and never negative.
     */
    method GetNextTimeoutMs() returns (r: int, ghost first: int)
      requires Valid()
      modifies this
      ensures Valid() && old(now) <= now
      ensures old(fired) <= fired
      ensures var due := fired[|old(fired)|..];
        && InOrder(old(entries), due)
        && entries == old(entries) - Ids(due) - RemovedBy(old(entries), due)
      ensures r == -1 <==> entries == map[]
      ensures r != -1 ==>
        && first in entries && (forall id :: id in entries ==> entries[first].expires <= entries[id].expires)
        && 0 <= r <= INT_MAX && RoundsDown(r, entries[first].expires - now)
    {
      first := 0;
      Tick();
      var top := DiscardStaleTop();
      if heap == [] {
        return -1, first;
      }
      var t := Now();
      var diff := heap[top].expires - t;
      first := heap[top].id;
      assert first in entries;
      DurationCast(diff);
      r := if diff > 0 then diff / NS_PER_MS else 0;
    }
  }

  // Sleeping r milliseconds neither overshoots a wait of `ns` nor falls short by a full one.
  predicate RoundsDown(r: int, ns: int) {
    r * NS_PER_MS <= (if ns > 0 then ns else 0) < (r + 1) * NS_PER_MS
  }

  lemma DurationCast(ns: int)
    ensures RoundsDown(if ns > 0 then ns / NS_PER_MS else 0, ns)
  {
  }

  // One more firing: what it adds to the order and to what is gone.
  lemma FireNext(was: map<int, Entry>, due: seq<Firing>, f: Firing)
    requires InOrder(was, due)
    requires f.id in was - Ids(due) - RemovedBy(was, due)
    requires f.deadline == was[f.id].expires <= f.clock
    requires forall i :: 0 <= i < |due| ==> due[i].deadline <= f.deadline && due[i].clock <= f.clock
    ensures InOrder(was, due + [f])
    ensures was - Ids(due + [f]) - RemovedBy(was, due + [f])
         == was - Ids(due) - RemovedBy(was, due) - {f.id} - (set id | id in was[f.id].callback)
  {
    forall i | 0 <= i < |due| ensures due[i].id != f.id && f.id !in was[due[i].id].callback {
      assert due[i].id in Ids(due);
    }
    assert Ids(due + [f]) == Ids(due) + {f.id} by {
      assert (due + [f])[|due|] == f;
      forall i | 0 <= i < |due| ensures due[i].id in Ids(due + [f]) {
        assert (due + [f])[i] == due[i];
      }
    }
    RemovedNext(was, due, f);
  }

  lemma RemovedNext(was: map<int, Entry>, due: seq<Firing>, f: Firing)
    requires f.id in was
    ensures RemovedBy(was, due + [f]) == RemovedBy(was, due) + (set id | id in was[f.id].callback)
  {
    var more := due + [f];
    assert more[|due|] == f;
    forall id | id in RemovedBy(was, due) ensures id in RemovedBy(was, more) {
      var i :| 0 <= i < |due| && due[i].id in was && id in was[due[i].id].callback;
      assert more[i] == due[i];
    }
    forall id | id in was[f.id].callback ensures id in RemovedBy(was, more) {
      assert more[|due|].id in was && id in was[more[|due|].id].callback;
    }
    forall id | id in RemovedBy(was, more) ensures id in RemovedBy(was, due) || id in was[f.id].callback {
      var i :| 0 <= i < |more| && more[i].id in was && id in was[more[i].id].callback;
      assert i < |due| ==> more[i] == due[i];
    }
  }
}
