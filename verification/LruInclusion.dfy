/** When a put keeps both bounds, and when a small cache stays inside a large one. */
module LruInclusion {
  import opened Basics
  import opened LruSpec

  // ----- The byte bound and 64-bit sums -----

  lemma {:induction false} TotalDrop<K, V>(items: seq<Item<K, V>>, k: K)
    ensures Total(items) == Total(Drop(items, k)) + if HasKey(items, k) then Lookup(items, k).weight else 0
  {
    if items != [] {
      HasKeyTail(items, k);
      assert items == [items[0]] + items[1..];
      TotalFront(items[0], items[1..]);
      if items[0].key != k {
        TotalDrop(items[1..], k);
        TotalFront(items[0], Drop(items[1..], k));
      }
    }
  }

  // No sum that the cache compares can reach 2^64.
  predicate NoWrap(maxEntries: nat, maxBytes: nat, weight: nat) {
    maxEntries < 2 || maxBytes == 0 || maxBytes + weight < WORD
  }

  // With room for one entry only the new item is ever summed.
  lemma OneEntryPut<K, V>(items: seq<Item<K, V>>, x: Item<K, V>, maxBytes: nat)
    requires |items| <= 1 && 0 < maxBytes < WORD && x.weight < WORD
    ensures Put(items, x, 1, maxBytes) == if x.weight > maxBytes then [] else [x]
  {
    var order := [x] + Drop(items, x.key);
    assert Total([x]) == x.weight by { assert [x][..0] == []; }
    assert order[..1] == [x] && [x][..0] == [];
    assert Evict([x], 1, maxBytes) == if x.weight > maxBytes then [] else [x];
    assert Evict(order, 1, maxBytes) == Evict([x], 1, maxBytes) by {
      if |order| == 1 {
        assert order == [x];
      }
    }
  }

  lemma OrderWeight<K, V>(items: seq<Item<K, V>>, x: Item<K, V>)
    ensures Total([x] + Drop(items, x.key)) <= x.weight + Total(items)
  {
    TotalDrop(items, x.key);
    TotalFront(x, Drop(items, x.key));
  }

  lemma PutFits<K, V>(items: seq<Item<K, V>>, x: Item<K, V>, maxEntries: nat, maxBytes: nat)
    requires Fits(items, maxEntries, maxBytes) && maxBytes < WORD && x.weight < WORD
    requires NoWrap(maxEntries, maxBytes, x.weight)
    ensures Fits(Put(items, x, maxEntries, maxBytes), maxEntries, maxBytes)
  {
    if maxEntries == 1 && maxBytes > 0 {
      OneEntryPut(items, x, maxBytes);
      assert Total([x]) == x.weight by { assert [x][..0] == []; }
    } else if maxEntries > 0 && maxBytes > 0 {
      OrderWeight(items, x);
      EvictLeavesLongestFit([x] + Drop(items, x.key), maxEntries, maxBytes, 0);
    }
  }

  // Whatever the cache holds, a put of this weight leaves it within its bounds.
  ghost predicate PutKeepsBounds(maxEntries: nat, maxBytes: nat, weight: nat) {
    forall items: seq<Item<nat, nat>>, k: nat :: Fits(items, maxEntries, maxBytes) ==>
      Fits(Put(items, Item(k, 0, weight), maxEntries, maxBytes), maxEntries, maxBytes)
  }

  // Two items whose sum wraps around stay although they do not fit.
  lemma WrapKeepsBoth(maxEntries: nat, maxBytes: nat, weight: nat) returns (a: Item<nat, nat>, x: Item<nat, nat>)
    requires maxEntries >= 2 && 0 < maxBytes < WORD && weight < WORD && maxBytes + weight >= WORD
    ensures x == Item(1, 0, weight) && Fits([a], maxEntries, maxBytes)
    ensures Put([a], x, maxEntries, maxBytes) == [x] + [a] && Total([x] + [a]) > maxBytes
  {
    a, x := Item(0, 0, maxBytes), Item(1, 0, weight);
    assert Total([a]) == maxBytes by { TotalFront(a, []); assert [a] == [a] + []; }
    assert Drop([a], 1) == [a];
    TotalFront(x, [a]);
  }

  /** The byte bound survives every put exactly if one more such value cannot wrap the sum. */
  lemma PutKeepsBoundsExactly(maxEntries: nat, maxBytes: nat, weight: nat)
    requires maxBytes < WORD && weight < WORD
    ensures PutKeepsBounds(maxEntries, maxBytes, weight) <==> NoWrap(maxEntries, maxBytes, weight)
  {
    if !NoWrap(maxEntries, maxBytes, weight) {
      var a, x := WrapKeepsBoth(maxEntries, maxBytes, weight);
      assert !Fits(Put([a], Item(1, 0, weight), maxEntries, maxBytes), maxEntries, maxBytes);
    } else {
      forall items: seq<Item<nat, nat>>, k: nat | Fits(items, maxEntries, maxBytes)
        ensures Fits(Put(items, Item(k, 0, weight), maxEntries, maxBytes), maxEntries, maxBytes)
      {
        PutFits(items, Item(k, 0, weight), maxEntries, maxBytes);
      }
    }
  }

  // Whatever the cache holds, a put of this weight empties it.
  ghost predicate PutEmpties(maxEntries: nat, maxBytes: nat, weight: nat) {
    forall items: seq<Item<nat, nat>>, k: nat :: Fits(items, maxEntries, maxBytes) ==>
      Put(items, Item(k, 0, weight), maxEntries, maxBytes) == []
  }

  /** A value heavier than the byte bound always empties the cache exactly if the sum cannot wrap. */
  lemma HeavyValueExactly(maxEntries: nat, maxBytes: nat, weight: nat)
    requires maxEntries > 0 && 0 < maxBytes < weight < WORD
    ensures PutEmpties(maxEntries, maxBytes, weight) <==> NoWrap(maxEntries, maxBytes, weight)
  {
    if !NoWrap(maxEntries, maxBytes, weight) {
      var a, x := WrapKeepsBoth(maxEntries, maxBytes, weight);
      assert Put([a], Item(1, 0, weight), maxEntries, maxBytes) != [];
    } else {
      forall items: seq<Item<nat, nat>>, k: nat | Fits(items, maxEntries, maxBytes)
        ensures Put(items, Item(k, 0, weight), maxEntries, maxBytes) == []
      {
        var x: Item<nat, nat> := Item(k, 0, weight);
        if maxEntries == 1 {
          OneEntryPut(items, x, maxBytes);
        } else {
          OrderWeight(items, x);
          HeavyValueEmptiesCache(items, x, maxEntries, maxBytes);
        }
      }
    }
  }

  // ----- Runs of operations -----

  datatype Op<K, V> = DoGet(k: K) | DoPut(k: K, v: V) | DoErase(k: K) | DoClear

  datatype Bounds = Bounds(entries: nat, bytes: nat)

  function Step<K(==), V>(items: seq<Item<K, V>>, op: Op<K, V>, b: Bounds, w: V -> nat): seq<Item<K, V>> {
    match op
    case DoGet(k) => Get(items, k)
    case DoPut(k, v) => Put(items, Item(k, v, w(v)), b.entries, b.bytes)
    case DoErase(k) => Drop(items, k)
    case DoClear => []
  }

  // The contents of a cache that starts empty, after a sequence of operations.
  function After<K(==), V>(ops: seq<Op<K, V>>, b: Bounds, w: V -> nat): seq<Item<K, V>> {
    if ops == [] then [] else Step(After(ops[..|ops| - 1], b, w), ops[|ops| - 1], b, w)
  }

  lemma StepKeepsBounds<K, V>(items: seq<Item<K, V>>, op: Op<K, V>, b: Bounds, w: V -> nat)
    requires Distinct(items) && Fits(items, b.entries, b.bytes)
    requires op.DoPut? ==> b.bytes < WORD && w(op.v) < WORD && NoWrap(b.entries, b.bytes, w(op.v))
    ensures var r := Step(items, op, b, w); Distinct(r) && Fits(r, b.entries, b.bytes)
  {
    match op
    case DoGet(k) => GetKeepsBounds(items, k);
    case DoPut(k, v) =>
      var x := Item(k, v, w(v));
      PutFits(items, x, b.entries, b.bytes);
      DropMembers(items, k);
      FrontDistinct(x, Drop(items, k));
      EvictPrefix([x] + Drop(items, k), b.entries, b.bytes);
    case DoErase(k) =>
      DropMembers(items, k);
      TotalDrop(items, k);
    case DoClear =>
  }

  lemma GetKeepsBounds<K, V>(items: seq<Item<K, V>>, k: K)
    requires Distinct(items)
    ensures Distinct(Get(items, k)) && |Get(items, k)| == |items| && Total(Get(items, k)) == Total(items)
  {
    if HasKey(items, k) {
      DropSize(items, k);
      DropMembers(items, k);
      FrontDistinct(Lookup(items, k), Drop(items, k));
      TotalDrop(items, k);
      TotalFront(Lookup(items, k), Drop(items, k));
    }
  }

  lemma {:induction false} EvictPrefix<K, V>(items: seq<Item<K, V>>, maxEntries: nat, maxBytes: nat)
    ensures Evict(items, maxEntries, maxBytes) <= items
  {
    if TooBig(items, maxEntries, maxBytes) {
      EvictPrefix(items[..|items| - 1], maxEntries, maxBytes);
    }
  }

  /** No key twice and both bounds kept, after any operations whose weights cannot wrap the sum. */
  lemma {:induction false} RunKeepsBounds<K, V>(ops: seq<Op<K, V>>, b: Bounds, w: V -> nat)
    requires b.bytes < WORD
    requires forall i :: 0 <= i < |ops| && ops[i].DoPut? ==>
               w(ops[i].v) < WORD && NoWrap(b.entries, b.bytes, w(ops[i].v))
    ensures Distinct(After(ops, b, w)) && Fits(After(ops, b, w), b.entries, b.bytes)
  {
    if ops != [] {
      RunKeepsBounds(ops[..|ops| - 1], b, w);
      StepKeepsBounds(After(ops[..|ops| - 1], b, w), ops[|ops| - 1], b, w);
    }
  }

  // The byte bound never decides: it has room for max_entries values of the largest weight.
  ghost predicate Slack<V(!new)>(b: Bounds, w: V -> nat, largest: nat) {
    && (forall v :: w(v) <= largest)
    && b.entries * largest <= b.bytes < WORD
  }

  ghost predicate Light<K, V>(items: seq<Item<K, V>>, largest: nat) {
    forall i :: 0 <= i < |items| ==> items[i].weight <= largest
  }

  lemma {:induction false} LightTotal<K, V>(items: seq<Item<K, V>>, largest: nat)
    requires Light(items, largest)
    ensures Total(items) <= |items| * largest
  {
    if items != [] {
      LightTotal(items[..|items| - 1], largest);
    }
  }

  lemma SlackTest<K, V>(items: seq<Item<K, V>>, b: Bounds, largest: nat)
    requires Light(items, largest) && b.entries * largest <= b.bytes < WORD && |items| <= b.entries
    ensures !TooBig(items, b.entries, b.bytes)
  {
    LightTotal(items, largest);
    TimesGrows(|items|, b.entries, largest);
    var sum := Total(items);
    assert sum % WORD == sum;
  }

  lemma TimesGrows(a: nat, b: nat, c: nat)
    requires a <= b
    ensures a * c <= b * c
  {
  }

  // With a slack byte bound, one insertion evicts at most the last item.
  lemma SlackEvict<K, V>(items: seq<Item<K, V>>, b: Bounds, largest: nat)
    requires Light(items, largest) && b.entries * largest <= b.bytes < WORD && |items| <= b.entries + 1
    ensures Evict(items, b.entries, b.bytes)
         == if |items| <= b.entries then items else items[..|items| - 1]
  {
    if |items| <= b.entries {
      SlackTest(items, b, largest);
    } else {
      SlackTest(items[..|items| - 1], b, largest);
    }
  }

  // ----- Sub-sequences -----

  predicate Sub<T(==)>(xs: seq<T>, ys: seq<T>) {
    if xs == [] then true
    else if ys == [] then false
    else if xs[0] == ys[0] then Sub(xs[1..], ys[1..])
    else Sub(xs, ys[1..])
  }

  lemma {:induction false} SubMember<T>(xs: seq<T>, ys: seq<T>, i: nat)
    requires Sub(xs, ys) && i < |xs|
    ensures xs[i] in ys
  {
    if xs[0] == ys[0] {
      if i > 0 {
        SubMember(xs[1..], ys[1..], i - 1);
      }
    } else {
      SubMember(xs, ys[1..], i);
    }
  }

  lemma {:induction false} SubInit<T>(xs: seq<T>, ys: seq<T>)
    requires Sub(xs, ys) && xs != [] && ys != []
    ensures Sub(xs[..|xs| - 1], ys[..|ys| - 1])
  {
    var xs', ys' := xs[..|xs| - 1], ys[..|ys| - 1];
    if |xs| > 1 {
      if xs[0] == ys[0] {
        SubInit(xs[1..], ys[1..]);
        assert xs'[1..] == xs[1..][..|xs| - 2];
        assert |ys| > 1 && ys'[1..] == ys[1..][..|ys| - 2];
      } else {
        SubInit(xs, ys[1..]);
        assert |ys| > 1 && ys'[1..] == ys[1..][..|ys| - 2];
      }
    }
  }

  // A longer second sequence contains the first one as well, if it starts with something new.
  lemma SubSkip<T>(xs: seq<T>, y: T, ys: seq<T>)
    requires Sub(xs, ys) && y !in ys
    ensures Sub(xs, [y] + ys)
  {
    if xs != [] {
      SubMember(xs, ys, 0);
      assert ([y] + ys)[1..] == ys;
    }
  }

  lemma {:induction false} SubDrop<K, V>(xs: seq<Item<K, V>>, ys: seq<Item<K, V>>, k: K)
    requires Sub(xs, ys) && Distinct(ys)
    ensures Sub(Drop(xs, k), Drop(ys, k))
  {
    if xs != [] {
      var rest := ys[1..];
      if xs[0] == ys[0] {
        if ys[0].key != k {
          SubDrop(xs[1..], rest, k);
        }
      } else {
        SubDrop(xs, rest, k);
        if ys[0].key == k {
          assert !HasKey(rest, k);
          DropSize(rest, k);
        } else {
          DropMembers(rest, k);
          SubSkip(Drop(xs, k), ys[0], Drop(rest, k));
        }
      }
    }
  }

  // ----- Inclusion -----

  // The small cache is part of the large one, and falls behind by no more than the bounds do.
  ghost predicate Included<K, V>(xs: seq<Item<K, V>>, ys: seq<Item<K, V>>, small: nat, large: nat) {
    && Sub(xs, ys) && Distinct(xs) && Distinct(ys)
    && |xs| <= small && |ys| <= large
    && |ys| - |xs| <= large - small
  }

  lemma SubSameItem<K, V>(xs: seq<Item<K, V>>, ys: seq<Item<K, V>>, k: K)
    requires Sub(xs, ys) && Distinct(ys) && HasKey(xs, k)
    ensures HasKey(ys, k) && Lookup(ys, k) == Lookup(xs, k)
  {
    var i :| 0 <= i < |xs| && xs[i] == Lookup(xs, k);
    SubMember(xs, ys, i);
  }

  lemma {:induction false} SubLength<T>(xs: seq<T>, ys: seq<T>)
    requires Sub(xs, ys)
    ensures |xs| <= |ys|
  {
    if xs != [] {
      SubLength(if xs[0] == ys[0] then xs[1..] else xs, ys[1..]);
    }
  }

  lemma DropIncluded<K, V>(xs: seq<Item<K, V>>, ys: seq<Item<K, V>>, k: K, small: nat, large: nat)
    requires Included(xs, ys, small, large)
    ensures Included(Drop(xs, k), Drop(ys, k), small, large)
  {
    SubDrop(xs, ys, k);
    DropMembers(xs, k);
    DropMembers(ys, k);
    DropSize(xs, k);
    DropSize(ys, k);
    if HasKey(xs, k) {
      SubSameItem(xs, ys, k);
    }
  }

  lemma GetIncluded<K, V>(xs: seq<Item<K, V>>, ys: seq<Item<K, V>>, k: K, small: nat, large: nat)
    requires Included(xs, ys, small, large)
    ensures Included(Get(xs, k), Get(ys, k), small, large)
  {
    SubDrop(xs, ys, k);
    DropMembers(xs, k);
    DropMembers(ys, k);
    DropSize(xs, k);
    DropSize(ys, k);
    if HasKey(ys, k) {
      var y := Lookup(ys, k);
      FrontDistinct(y, Drop(ys, k));
      if HasKey(xs, k) {
        SubSameItem(xs, ys, k);
        FrontDistinct(y, Drop(xs, k));
        assert ([y] + Drop(xs, k))[1..] == Drop(xs, k) && ([y] + Drop(ys, k))[1..] == Drop(ys, k);
      } else {
        SubSkip(xs, y, Drop(ys, k));
      }
    } else if HasKey(xs, k) {
      SubSameItem(xs, ys, k);
    }
  }

  function Trim<T>(xs: seq<T>, n: nat): seq<T> {
    if |xs| <= n then xs else xs[..|xs| - 1]
  }

  lemma SlackPut<K, V>(items: seq<Item<K, V>>, x: Item<K, V>, b: Bounds, largest: nat)
    requires |items| <= b.entries && b.entries > 0 && b.bytes > 0
    requires Light(items, largest) && x.weight <= largest && b.entries * largest <= b.bytes < WORD
    ensures Put(items, x, b.entries, b.bytes) == Trim([x] + Drop(items, x.key), b.entries)
    ensures Light(Put(items, x, b.entries, b.bytes), largest)
  {
    var order := [x] + Drop(items, x.key);
    LightOrder(items, x, largest);
    SlackEvict(order, b, largest);
    assert Put(items, x, b.entries, b.bytes) == Trim(order, b.entries);
  }

  lemma LightOrder<K, V>(items: seq<Item<K, V>>, x: Item<K, V>, largest: nat)
    requires Light(items, largest) && x.weight <= largest
    ensures Light([x] + Drop(items, x.key), largest)
  {
    var order := [x] + Drop(items, x.key);
    DropMembers(items, x.key);
    forall i | 0 <= i < |order| ensures order[i].weight <= largest {
      assert i > 0 ==> order[i] in Drop(items, x.key);
    }
  }

  lemma PutIncluded<K, V>(xs: seq<Item<K, V>>, ys: seq<Item<K, V>>, x: Item<K, V>, small: nat, large: nat)
    requires Included(xs, ys, small, large) && small <= large
    ensures Included(Trim([x] + Drop(xs, x.key), small), Trim([x] + Drop(ys, x.key), large), small, large)
  {
    var xs', ys' := [x] + Drop(xs, x.key), [x] + Drop(ys, x.key);
    DropIncluded(xs, ys, x.key, small, large);
    DropMembers(xs, x.key);
    DropMembers(ys, x.key);
    FrontDistinct(x, Drop(xs, x.key));
    FrontDistinct(x, Drop(ys, x.key));
    assert xs'[1..] == Drop(xs, x.key) && ys'[1..] == Drop(ys, x.key);
    SubInit(xs', ys');
    FrontEvict(xs', ys', small, large);
  }

  // The large cache evicts only when the small one is full and evicts as well.
  lemma FrontEvict<K, V>(xs: seq<Item<K, V>>, ys: seq<Item<K, V>>, small: nat, large: nat)
    requires Sub(xs, ys) && Distinct(xs) && Distinct(ys) && xs != [] && ys != []
    requires |xs| <= small + 1 && |ys| <= large + 1 && |ys| - |xs| <= large - small
    requires Sub(xs[..|xs| - 1], ys[..|ys| - 1])
    ensures Included(Trim(xs, small), Trim(ys, large), small, large)
  {
    if |xs| > small && |ys| <= large {
      SubPrefix(xs, ys);
    }
  }

  lemma {:induction false} SubPrefix<T>(xs: seq<T>, ys: seq<T>)
    requires Sub(xs, ys) && xs != []
    ensures Sub(xs[..|xs| - 1], ys)
  {
    if |xs| > 1 {
      if xs[0] == ys[0] {
        SubPrefix(xs[1..], ys[1..]);
        assert xs[1..][..|xs| - 2] == xs[..|xs| - 1][1..];
      } else {
        SubPrefix(xs, ys[1..]);
      }
    }
  }

  lemma LightMembers<K, V>(items: seq<Item<K, V>>, more: seq<Item<K, V>>, largest: nat)
    requires Light(items, largest) && forall x :: x in more ==> x in items
    ensures Light(more, largest)
  {
    forall i | 0 <= i < |more| ensures more[i].weight <= largest {
      assert more[i] in items;
    }
  }

  lemma LightStep<K, V(!new)>(items: seq<Item<K, V>>, op: Op<K, V>, b: Bounds, w: V -> nat, largest: nat)
    requires Light(items, largest) && Slack(b, w, largest) && |items| <= b.entries
    ensures Light(Step(items, op, b, w), largest)
  {
    match op
    case DoGet(k) =>
      DropMembers(items, k);
      LightMembers(items, Get(items, k), largest);
    case DoPut(k, v) =>
      if b.entries > 0 && b.bytes > 0 {
        SlackPut(items, Item(k, v, w(v)), b, largest);
      }
    case DoErase(k) =>
      DropMembers(items, k);
      LightMembers(items, Drop(items, k), largest);
    case DoClear =>
  }

  lemma IncludedStep<K, V(!new)>(
      xs: seq<Item<K, V>>, ys: seq<Item<K, V>>, op: Op<K, V>, small: Bounds, large: Bounds, w: V -> nat, largest: nat)
    requires Included(xs, ys, small.entries, large.entries)
    requires 0 < small.entries <= large.entries && small.bytes > 0 && large.bytes > 0
    requires Slack(small, w, largest) && Slack(large, w, largest)
    requires Light(xs, largest) && Light(ys, largest)
    ensures Included(Step(xs, op, small, w), Step(ys, op, large, w), small.entries, large.entries)
  {
    match op
    case DoGet(k) => GetIncluded(xs, ys, k, small.entries, large.entries);
    case DoPut(k, v) =>
      var x := Item(k, v, w(v));
      SlackPut(xs, x, small, largest);
      SlackPut(ys, x, large, largest);
      PutIncluded(xs, ys, x, small.entries, large.entries);
    case DoErase(k) => DropIncluded(xs, ys, k, small.entries, large.entries);
    case DoClear =>
  }

  lemma {:induction false} IncludedRun<K, V(!new)>(
      ops: seq<Op<K, V>>, small: Bounds, large: Bounds, w: V -> nat, largest: nat)
    requires 0 < small.entries <= large.entries && small.bytes > 0 && large.bytes > 0
    requires Slack(small, w, largest) && Slack(large, w, largest)
    ensures Included(After(ops, small, w), After(ops, large, w), small.entries, large.entries)
    ensures Light(After(ops, small, w), largest) && Light(After(ops, large, w), largest)
  {
    if ops != [] {
      var front, op := ops[..|ops| - 1], ops[|ops| - 1];
      IncludedRun(front, small, large, w, largest);
      IncludedStep(After(front, small, w), After(front, large, w), op, small, large, w, largest);
      LightStep(After(front, small, w), op, small, w, largest);
      LightStep(After(front, large, w), op, large, w, largest);
    }
  }

  // A cache with a zero bound stays empty.
  lemma {:induction false} DisabledRun<K, V>(ops: seq<Op<K, V>>, b: Bounds, w: V -> nat)
    requires b.entries == 0 || b.bytes == 0
    ensures After(ops, b, w) == []
  {
    if ops != [] {
      DisabledRun(ops[..|ops| - 1], b, w);
    }
  }

  /**
   The same operations on two caches whose byte bounds are slack: what the small cache holds,
   in its order and with its values, is a sub-sequence of what the large one holds.
   */
  lemma SmallInsideLarge<K, V(!new)>(
      ops: seq<Op<K, V>>, small: Bounds, large: Bounds, w: V -> nat, largest: nat)
    requires small.entries <= large.entries && large.bytes > 0
    requires Slack(small, w, largest) && Slack(large, w, largest)
    ensures Sub(After(ops, small, w), After(ops, large, w))
    ensures |After(ops, small, w)| <= |After(ops, large, w)|
  {
    if small.entries == 0 || small.bytes == 0 {
      DisabledRun(ops, small, w);
    } else {
      IncludedRun(ops, small, large, w, largest);
    }
    SubLength(After(ops, small, w), After(ops, large, w));
  }

  /** With slack byte bounds, inclusion holds exactly if the large cache takes values or the small one does not. */
  lemma InclusionExactly<K(!new), V(!new)>(
      k: K, v: V, small: Bounds, large: Bounds, w: V -> nat, largest: nat)
    requires small.entries <= large.entries && Slack(small, w, largest) && Slack(large, w, largest)
    ensures (forall ops: seq<Op<K, V>> :: Sub(After(ops, small, w), After(ops, large, w)))
       <==> (large.bytes > 0 || small.entries == 0 || small.bytes == 0)
  {
    if large.bytes > 0 || small.entries == 0 || small.bytes == 0 {
      forall ops: seq<Op<K, V>> ensures Sub(After(ops, small, w), After(ops, large, w)) {
        if large.bytes > 0 {
          SmallInsideLarge(ops, small, large, w, largest);
        } else {
          DisabledRun(ops, small, w);
        }
      }
    } else {
      var ops: seq<Op<K, V>> := [DoPut(k, v)];
      assert ops[..0] == [];
      DisabledRun(ops, large, w);
      SlackPut([], Item(k, v, w(v)), small, largest);
      assert After(ops, small, w) == [Item(k, v, w(v))];
    }
  }

  // Values that are their own weights.
  function Own(v: nat): nat {
    v
  }

  function Plain(k: nat, v: nat): Item<nat, nat> {
    Item(k, v, v)
  }

  lemma AfterSnoc<K, V>(ops: seq<Op<K, V>>, op: Op<K, V>, b: Bounds, w: V -> nat)
    ensures After(ops + [op], b, w) == Step(After(ops, b, w), op, b, w)
  {
    assert (ops + [op])[..|ops|] == ops;
  }

  // One put of a new key, with the weights added up.
  lemma PutNew(items: seq<Item<nat, nat>>, k: nat, v: nat, b: Bounds)
    requires !HasKey(items, k) && |items| < b.entries && b.bytes > 0 && v + Total(items) < WORD
    ensures Total([Plain(k, v)] + items) == v + Total(items)
    ensures Put(items, Plain(k, v), b.entries, b.bytes)
         == if v + Total(items) <= b.bytes then [Plain(k, v)] + items
            else Evict(([Plain(k, v)] + items)[..|items|], b.entries, b.bytes)
  {
    TotalFront(Plain(k, v), items);
    DropSize(items, k);
    EvictOnce([Plain(k, v)] + items, b);
  }

  lemma EvictOnce<K, V>(items: seq<Item<K, V>>, b: Bounds)
    requires items != [] && |items| <= b.entries && Total(items) < WORD
    ensures Evict(items, b.entries, b.bytes)
         == if Total(items) <= b.bytes then items else Evict(items[..|items| - 1], b.entries, b.bytes)
  {
    var sum := Total(items);
    assert sum % WORD == sum;
  }

  const OPS: seq<Op<nat, nat>> := [DoPut(0, 8)] + [DoPut(1, 1)] + [DoPut(2, 1)] + [DoGet(0)] + [DoPut(3, 1)]

  lemma UnrollOps(b: Bounds)
    ensures After(OPS, b, Own) ==
      Put(Get(Put(Put(Put([], Plain(0, 8), b.entries, b.bytes), Plain(1, 1), b.entries, b.bytes),
                  Plain(2, 1), b.entries, b.bytes), 0), Plain(3, 1), b.entries, b.bytes)
  {
    var o1: seq<Op<nat, nat>> := [DoPut(0, 8)];
    var o2, o3 := o1 + [DoPut(1, 1)], o1 + [DoPut(1, 1)] + [DoPut(2, 1)];
    assert o1 == [] + [DoPut(0, 8)];
    AfterSnoc<nat, nat>([], DoPut(0, 8), b, Own);
    AfterSnoc(o1, DoPut(1, 1), b, Own);
    AfterSnoc(o2, DoPut(2, 1), b, Own);
    AfterSnoc(o3, DoGet(0), b, Own);
    AfterSnoc(o3 + [DoGet(0)], DoPut(3, 1), b, Own);
  }

  lemma SmallRun()
    ensures After(OPS, Bounds(9, 5), Own) == [Plain(3, 1)] + ([Plain(2, 1)] + ([Plain(1, 1)] + []))
  {
    var b := Bounds(9, 5);
    UnrollOps(b);
    PutNew([], 0, 8, b);
    PutNew([], 1, 1, b);
    PutNew([Plain(1, 1)] + [], 2, 1, b);
    PutNew([Plain(2, 1)] + ([Plain(1, 1)] + []), 3, 1, b);
  }

  lemma LargeGet()
    ensures var x, y, z := Plain(0, 8), Plain(1, 1), Plain(2, 1);
      Get([z, y, x], 0) == [x, z, y] && Total([z, y, x]) == 10 && Total([x, z, y]) == 10
  {
    var x, y, z := Plain(0, 8), Plain(1, 1), Plain(2, 1);
    var three := [z, y, x];
    assert three[2].key == 0;
    DropAt(three, 2);
    assert three[..2] + three[3..] == [z, y];
    TotalOfThree(z, y, x);
    TotalOfThree(x, z, y);
  }

  lemma TotalOfThree(a: Item<nat, nat>, b: Item<nat, nat>, c: Item<nat, nat>)
    ensures Total([a, b, c]) == a.weight + b.weight + c.weight
  {
    assert [a, b, c] == [a] + ([b] + ([c] + []));
    TotalFront(c, []);
    TotalFront(b, [c] + []);
    TotalFront(a, [b] + ([c] + []));
  }

  lemma LargePuts()
    ensures Put(Put(Put([], Plain(0, 8), 9, 10), Plain(1, 1), 9, 10), Plain(2, 1), 9, 10)
         == [Plain(2, 1), Plain(1, 1), Plain(0, 8)]
  {
    var b, x, y := Bounds(9, 10), Plain(0, 8), Plain(1, 1);
    PutNew([], 0, 8, b);
    PutNew([x] + [], 1, 1, b);
    PutNew([y] + ([x] + []), 2, 1, b);
    assert [Plain(2, 1)] + ([y] + ([x] + [])) == [Plain(2, 1), y, x];
  }

  lemma LargeLast()
    ensures Put([Plain(0, 8), Plain(2, 1), Plain(1, 1)], Plain(3, 1), 9, 10)
         == [Plain(3, 1), Plain(0, 8), Plain(2, 1)]
  {
    var b, u, x, z := Bounds(9, 10), Plain(3, 1), Plain(0, 8), Plain(2, 1);
    var three := [x, z, Plain(1, 1)];
    LargeGet();
    PutNew(three, 3, 1, b);
    assert ([u] + three)[..3] == [u, x, z];
    TotalOfThree(u, x, z);
    EvictOnce([u, x, z], b);
  }

  lemma LargeRun()
    ensures After(OPS, Bounds(9, 10), Own) == [Plain(3, 1), Plain(0, 8), Plain(2, 1)]
  {
    UnrollOps(Bounds(9, 10));
    LargePuts();
    LargeGet();
    LargeLast();
  }

  /** Without slack, byte bounds can keep in the small cache what the large one has evicted. */
  lemma ByteBoundsBreakInclusion()
    ensures HasKey(After(OPS, Bounds(9, 5), Own), 1)
    ensures !HasKey(After(OPS, Bounds(9, 10), Own), 1)
  {
    SmallRun();
    LargeRun();
    assert After(OPS, Bounds(9, 5), Own)[2].key == 1;
  }
}
