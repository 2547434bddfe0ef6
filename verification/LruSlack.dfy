/** Inclusion of a small cache in a large one when the byte bound of the small one may decide. */
module LruSlack {
  import opened Basics
  import opened LruSpec
  import opened LruInclusion

  // ----- Keys stay distinct whatever the bounds and weights -----

  lemma {:induction false} RunDistinct<K, V>(ops: seq<Op<K, V>>, b: Bounds, w: V -> nat)
    ensures Distinct(After(ops, b, w))
  {
    if ops != [] {
      var items := After(ops[..|ops| - 1], b, w);
      RunDistinct(ops[..|ops| - 1], b, w);
      match ops[|ops| - 1]
      case DoGet(k) => GetKeepsBounds(items, k);
      case DoPut(k, v) =>
        DropMembers(items, k);
        FrontDistinct(Item(k, v, w(v)), Drop(items, k));
        EvictPrefix([Item(k, v, w(v))] + Drop(items, k), b.entries, b.bytes);
      case DoErase(k) => DropMembers(items, k);
      case DoClear =>
    }
  }

  lemma {:induction false} SubSelf<T>(xs: seq<T>)
    ensures Sub(xs, xs)
  {
    if xs != [] {
      SubSelf(xs[1..]);
    }
  }

  lemma {:induction false} SubOne<T>(x: T, ys: seq<T>)
    requires x in ys
    ensures Sub([x], ys)
  {
    if x != ys[0] {
      SubOne(x, ys[1..]);
    }
  }

  // ----- A small cache with room for one entry -----

  // The small cache holds nothing, or one item that the large one holds too.
  predicate Single<T(==)>(xs: seq<T>, ys: seq<T>) {
    xs == [] || (|xs| == 1 && xs[0] in ys)
  }

  lemma FrontSurvives<K, V>(items: seq<Item<K, V>>, x: Item<K, V>, b: Bounds)
    requires b.entries > 0 && x.weight <= b.bytes && x.weight < WORD && b.bytes > 0
    ensures x in Put(items, x, b.entries, b.bytes)
  {
    var order := [x] + Drop(items, x.key);
    assert order[..1] == [x];
    assert Total([x]) == x.weight by { assert [x][..0] == []; }
    EvictLeavesLongest(order, b.entries, b.bytes, 1);
    assert Put(items, x, b.entries, b.bytes)[0] == x;
  }

  lemma DropKeeps<K, V>(items: seq<Item<K, V>>, x: Item<K, V>, k: K)
    requires x in items && x.key != k
    ensures x in Drop(items, k)
  {
    if items[0].key != k && x != items[0] {
      DropKeeps(items[1..], x, k);
    }
  }

  lemma GetKeeps<K, V>(items: seq<Item<K, V>>, x: Item<K, V>, k: K)
    requires x in items && Distinct(items)
    ensures x in Get(items, k)
  {
    if HasKey(items, k) {
      if x.key == k {
        var i :| 0 <= i < |items| && items[i] == x;
        DropAt(items, i);
      } else {
        DropKeeps(items, x, k);
      }
    }
  }

  lemma SingleStep<K, V>(
      xs: seq<Item<K, V>>, ys: seq<Item<K, V>>, op: Op<K, V>, small: Bounds, large: Bounds, w: V -> nat)
    requires Single(xs, ys) && Distinct(ys)
    requires small.entries == 1 <= large.entries && 0 < small.bytes < WORD && large.bytes > 0
    requires op.DoPut? ==> w(op.v) < WORD && (w(op.v) <= small.bytes ==> w(op.v) <= large.bytes)
    ensures Single(Step(xs, op, small, w), Step(ys, op, large, w))
  {
    match op
    case DoGet(k) =>
      if xs != [] {
        GetKeeps(ys, xs[0], k);
        assert Get(xs, k) == xs;
      }
    case DoPut(k, v) =>
      var x := Item(k, v, w(v));
      OneEntryPut(xs, x, small.bytes);
      if x.weight <= small.bytes {
        FrontSurvives(ys, x, large);
      }
    case DoErase(k) =>
      if xs != [] && xs[0].key != k {
        DropKeeps(ys, xs[0], k);
        assert Drop(xs, k) == xs;
      }
    case DoClear =>
  }

  lemma {:induction false} SingleRun<K, V(!new)>(ops: seq<Op<K, V>>, small: Bounds, large: Bounds, w: V -> nat)
    requires small.entries == 1 <= large.entries && 0 < small.bytes < WORD && large.bytes > 0
    requires forall v :: w(v) < WORD && (w(v) <= small.bytes ==> w(v) <= large.bytes)
    ensures Single(After(ops, small, w), After(ops, large, w))
    ensures Sub(After(ops, small, w), After(ops, large, w))
  {
    if ops != [] {
      var front, op := ops[..|ops| - 1], ops[|ops| - 1];
      SingleRun(front, small, large, w);
      RunDistinct(front, large, w);
      SingleStep(After(front, small, w), After(front, large, w), op, small, large, w);
    }
    var xs, ys := After(ops, small, w), After(ops, large, w);
    if xs != [] {
      SubOne(xs[0], ys);
      assert xs == [xs[0]];
    }
  }

  // What one put leaves in an empty cache.
  lemma FirstPut<K, V>(k: K, v: V, b: Bounds, w: V -> nat)
    requires b.entries > 0 && 0 < b.bytes < WORD && w(v) < WORD
    ensures After([DoPut(k, v)], b, w) == if w(v) <= b.bytes then [Item(k, v, w(v))] else []
  {
    var x := Item(k, v, w(v));
    AfterSnoc([], DoPut(k, v), b, w);
    assert [] + [DoPut(k, v)] == [DoPut(k, v)];
    PutFirst(x, b);
  }

  lemma PutFirst<K, V>(x: Item<K, V>, b: Bounds)
    requires b.entries > 0 && 0 < b.bytes < WORD && x.weight < WORD
    ensures Put([], x, b.entries, b.bytes) == if x.weight <= b.bytes then [x] else []
  {
    assert [x] + Drop([], x.key) == [x] && [x][..0] == [];
    assert Total([x]) == x.weight;
    EvictOnce([x], b);
  }

  /** With one entry, inclusion holds exactly if every value that fits the small cache fits the large one. */
  lemma OneEntryExactly<K(!new), V(!new)>(k: K, small: Bounds, large: Bounds, w: V -> nat)
    requires small.entries == 1 <= large.entries && 0 < small.bytes < WORD && 0 < large.bytes < WORD
    requires forall v :: w(v) < WORD
    ensures (forall ops: seq<Op<K, V>> :: Sub(After(ops, small, w), After(ops, large, w)))
       <==> (forall v :: w(v) <= small.bytes ==> w(v) <= large.bytes)
  {
    if forall v :: w(v) <= small.bytes ==> w(v) <= large.bytes {
      forall ops: seq<Op<K, V>> ensures Sub(After(ops, small, w), After(ops, large, w)) {
        SingleRun(ops, small, large, w);
      }
    } else {
      var v :| w(v) <= small.bytes && w(v) > large.bytes;
      FirstPut(k, v, small, w);
      FirstPut(k, v, large, w);
      var ops: seq<Op<K, V>> := [DoPut(k, v)];
      assert !Sub(After(ops, small, w), After(ops, large, w));
    }
  }

  /** Equal bounds keep equal contents. */
  lemma SameBounds<K, V>(ops: seq<Op<K, V>>, b: Bounds, w: V -> nat)
    ensures Sub(After(ops, b, w), After(ops, b, w))
  {
    SubSelf(After(ops, b, w));
  }

  // ----- A large cache with a slack byte bound -----

  // Any weight up to the largest, by the value itself.
  function Capped(largest: nat): nat -> nat {
    (v: nat) => if v <= largest then v else largest
  }

  // Items of one weight with the keys hi - 1 down to lo.
  function Row(hi: nat, lo: nat, u: nat): (r: seq<Item<nat, nat>>)
    ensures |r| == if hi < lo then 0 else hi - lo
    ensures forall i :: 0 <= i < |r| ==> r[i] == Item(hi - 1 - i, u, u)
  {
    if hi <= lo then [] else [Item(hi - 1, u, u)] + Row(hi - 1, lo, u)
  }

  // The weight of n such items, without a product.
  function Weigh(n: nat, u: nat): nat {
    if n == 0 then 0 else Weigh(n - 1, u) + u
  }

  lemma {:induction false} WeighIs(n: nat, u: nat)
    ensures Weigh(n, u) == n * u
  {
    if n > 0 {
      WeighIs(n - 1, u);
      OneMore(n - 1, u);
    }
  }

  lemma {:induction false} WeighGrows(a: nat, b: nat, u: nat)
    requires a <= b
    ensures Weigh(a, u) <= Weigh(b, u)
  {
    if a < b {
      WeighGrows(a, b - 1, u);
    }
  }

  lemma {:induction false} RowTotal(hi: nat, lo: nat, u: nat)
    requires lo <= hi
    ensures Total(Row(hi, lo, u)) == Weigh(hi - lo, u)
  {
    if lo < hi {
      RowTotal(hi - 1, lo, u);
      TotalFront(Item(hi - 1, u, u), Row(hi - 1, lo, u));
    }
  }

  lemma OneMore(n: nat, u: nat)
    ensures (n + 1) * u == n * u + u
  {
  }

  lemma RowKeys(hi: nat, lo: nat, u: nat, k: nat)
    requires lo <= hi
    ensures HasKey(Row(hi, lo, u), k) <==> lo <= k < hi
  {
    if lo <= k < hi {
      assert Row(hi, lo, u)[hi - 1 - k].key == k;
    }
  }

  // Which items of weight u the small cache keeps: m of them weigh no more than its bound, one more does.
  ghost predicate Splits(small: Bounds, u: nat, m: nat) {
    && 0 < m < small.entries && small.bytes > 0
    && Weigh(m, u) <= small.bytes < Weigh(m + 1, u) < WORD
  }

  function Lowest(n: nat, m: nat): nat {
    if n < m then 0 else n - m
  }

  lemma SmallOrder(n: nat, lo: nat, u: nat)
    requires lo <= n
    ensures [Item(n, u, u)] + Drop(Row(n, lo, u), n) == Row(n + 1, lo, u)
  {
    RowKeys(n, lo, u, n);
    DropSize(Row(n, lo, u), n);
  }

  lemma RowFits(hi: nat, lo: nat, u: nat, small: Bounds, m: nat)
    requires Splits(small, u, m) && lo < hi && hi - lo <= m
    ensures Evict(Row(hi, lo, u), small.entries, small.bytes) == Row(hi, lo, u)
  {
    RowTotal(hi, lo, u);
    WeighGrows(hi - lo, m, u);
    WeighGrows(m, m + 1, u);
    EvictOnce(Row(hi, lo, u), small);
  }

  lemma RowTrims(hi: nat, lo: nat, u: nat, small: Bounds, m: nat)
    requires Splits(small, u, m) && lo <= hi && hi - lo == m + 1
    ensures Evict(Row(hi, lo, u), small.entries, small.bytes) == Row(hi, lo + 1, u)
  {
    RowTotal(hi, lo, u);
    EvictOnce(Row(hi, lo, u), small);
    assert Row(hi, lo, u)[..m] == Row(hi, lo + 1, u);
    RowFits(hi, lo + 1, u, small, m);
  }

  lemma PutRow(n: nat, lo: nat, u: nat, b: Bounds)
    requires lo <= n && b.entries > 0 && b.bytes > 0
    ensures Put(Row(n, lo, u), Item(n, u, u), b.entries, b.bytes) == Evict(Row(n + 1, lo, u), b.entries, b.bytes)
  {
    SmallOrder(n, lo, u);
  }

  lemma SmallPut(n: nat, u: nat, small: Bounds, m: nat)
    requires Splits(small, u, m)
    ensures Put(Row(n, Lowest(n, m), u), Item(n, u, u), small.entries, small.bytes) == Row(n + 1, Lowest(n + 1, m), u)
  {
    PutRow(n, Lowest(n, m), u, small);
    if n < m {
      RowFits(n + 1, 0, u, small, m);
    } else {
      RowTrims(n + 1, n - m, u, small, m);
    }
  }

  lemma LargePut(n: nat, u: nat, large: Bounds, largest: nat)
    requires u <= largest && n < large.entries && large.entries * largest <= large.bytes < WORD && large.bytes > 0
    ensures Put(Row(n, 0, u), Item(n, u, u), large.entries, large.bytes) == Row(n + 1, 0, u)
  {
    SlackPut(Row(n, 0, u), Item(n, u, u), large, largest);
    SmallOrder(n, 0, u);
  }

  function Puts(n: nat, u: nat): seq<Op<nat, nat>> {
    if n == 0 then [] else Puts(n - 1, u) + [DoPut(n - 1, u)]
  }

  lemma PutStep(ops: seq<Op<nat, nat>>, n: nat, u: nat, small: Bounds, large: Bounds, largest: nat, m: nat)
    requires Splits(small, u, m) && u <= largest && n < large.entries
    requires large.entries * largest <= large.bytes < WORD && large.bytes > 0
    requires After(ops, small, Capped(largest)) == Row(n, Lowest(n, m), u)
    requires After(ops, large, Capped(largest)) == Row(n, 0, u)
    ensures After(ops + [DoPut(n, u)], small, Capped(largest)) == Row(n + 1, Lowest(n + 1, m), u)
    ensures After(ops + [DoPut(n, u)], large, Capped(largest)) == Row(n + 1, 0, u)
  {
    AfterSnoc(ops, DoPut(n, u), small, Capped(largest));
    AfterSnoc(ops, DoPut(n, u), large, Capped(largest));
    SmallPut(n, u, small, m);
    LargePut(n, u, large, largest);
  }

  lemma {:induction false} AfterPuts(n: nat, u: nat, small: Bounds, large: Bounds, largest: nat, m: nat)
    requires Splits(small, u, m) && u <= largest && n <= large.entries
    requires large.entries * largest <= large.bytes < WORD && large.bytes > 0
    ensures After(Puts(n, u), small, Capped(largest)) == Row(n, Lowest(n, m), u)
    ensures After(Puts(n, u), large, Capped(largest)) == Row(n, 0, u)
  {
    if n > 0 {
      AfterPuts(n - 1, u, small, large, largest, m);
      PutStep(Puts(n - 1, u), n - 1, u, small, large, largest, m);
    }
  }

  // Looking up the keys below j, lowest first, turns the large cache around.
  function Gets(j: nat): seq<Op<nat, nat>> {
    if j == 0 then [] else Gets(j - 1) + [DoGet(j - 1)]
  }

  function Turned(n: nat, j: nat, u: nat): (r: seq<Item<nat, nat>>)
    requires j <= n
    ensures |r| == n
    ensures forall i :: 0 <= i < j ==> r[i] == Item(j - 1 - i, u, u)
    ensures forall i :: j <= i < n ==> r[i] == Item(n - 1 + j - i, u, u)
  {
    Row(j, 0, u) + Row(n, j, u)
  }

  lemma TurnedDistinct(n: nat, j: nat, u: nat)
    requires j <= n
    ensures Distinct(Turned(n, j, u))
  {
    var items := Turned(n, j, u);
    assert forall i :: 0 <= i < n ==> items[i].key == if i < j then j - 1 - i else n - 1 + j - i;
  }

  lemma TurnedNext(n: nat, j: nat, u: nat)
    requires j < n
    ensures var items := Turned(n, j, u); [items[n - 1]] + items[..n - 1] == Turned(n, j + 1, u)
  {
    var items, next := Turned(n, j, u), Turned(n, j + 1, u);
    forall i | 0 <= i < n ensures ([items[n - 1]] + items[..n - 1])[i] == next[i] {
    }
  }

  lemma LastToFront<K, V>(items: seq<Item<K, V>>, k: K)
    requires items != [] && Distinct(items) && items[|items| - 1].key == k
    ensures Get(items, k) == [items[|items| - 1]] + items[..|items| - 1]
  {
    DropAt(items, |items| - 1);
    assert items[..|items| - 1] + items[|items|..] == items[..|items| - 1];
  }

  lemma Turn(n: nat, j: nat, u: nat)
    requires j < n
    ensures Get(Turned(n, j, u), j) == Turned(n, j + 1, u)
  {
    TurnedDistinct(n, j, u);
    TurnedNext(n, j, u);
    LastToFront(Turned(n, j, u), j);
  }

  lemma GetStep(ops: seq<Op<nat, nat>>, j: nat, u: nat, small: Bounds, large: Bounds, w: nat -> nat, n: nat, m: nat)
    requires m <= n && j < n - m
    requires After(ops, small, w) == Row(n, n - m, u) && After(ops, large, w) == Turned(n, j, u)
    ensures After(ops + [DoGet(j)], small, w) == Row(n, n - m, u)
    ensures After(ops + [DoGet(j)], large, w) == Turned(n, j + 1, u)
  {
    AfterSnoc(ops, DoGet(j), small, w);
    AfterSnoc(ops, DoGet(j), large, w);
    RowKeys(n, n - m, u, j);
    Turn(n, j, u);
  }

  lemma {:induction false} AfterGets(j: nat, u: nat, small: Bounds, large: Bounds, largest: nat, m: nat)
    requires Splits(small, u, m) && u <= largest && small.entries <= large.entries && j <= large.entries - m
    requires large.entries * largest <= large.bytes < WORD && large.bytes > 0
    ensures var n, ops := large.entries, Puts(large.entries, u) + Gets(j);
      && After(ops, small, Capped(largest)) == Row(n, n - m, u)
      && After(ops, large, Capped(largest)) == Turned(n, j, u)
  {
    var n := large.entries;
    if j == 0 {
      assert Puts(n, u) + Gets(0) == Puts(n, u);
      AfterPuts(n, u, small, large, largest, m);
      TurnedNone(n, u);
    } else {
      AfterGets(j - 1, u, small, large, largest, m);
      GetStep(Puts(n, u) + Gets(j - 1), j - 1, u, small, large, Capped(largest), n, m);
      OpsNext(n, u, j);
    }
  }

  lemma TurnedNone(n: nat, u: nat)
    ensures Turned(n, 0, u) == Row(n, 0, u)
  {
  }

  lemma OpsNext(n: nat, u: nat, j: nat)
    requires j > 0
    ensures Puts(n, u) + Gets(j) == Puts(n, u) + Gets(j - 1) + [DoGet(j - 1)]
  {
  }

  // A weightless item then pushes the key n - m out of the large cache only.
  lemma LastPutSmall(n: nat, u: nat, small: Bounds, m: nat)
    requires Splits(small, u, m) && m <= n
    ensures HasKey(Put(Row(n, n - m, u), Item(n, 0, 0), small.entries, small.bytes), n - m)
  {
    var items, x := Row(n, n - m, u), Item(n, 0, 0);
    RowKeys(n, n - m, u, n);
    RowTotal(n, n - m, u);
    DropSize(items, n);
    TotalFront(x, items);
    WeighGrows(m, m + 1, u);
    EvictOnce([x] + items, small);
    assert ([x] + items)[m].key == n - m;
  }

  lemma LastPutLarge(n: nat, u: nat, large: Bounds, largest: nat, m: nat)
    requires 0 < m < n == large.entries && u <= largest
    requires large.entries * largest <= large.bytes < WORD && large.bytes > 0
    ensures !HasKey(Put(Turned(n, n - m, u), Item(n, 0, 0), large.entries, large.bytes), n - m)
  {
    var items, x := Turned(n, n - m, u), Item(n, 0, 0);
    assert !HasKey(items, n);
    DropSize(items, n);
    SlackPut(items, x, large, largest);
    var rest := ([x] + items)[..n];
    assert forall i :: 0 < i < n ==> rest[i] == items[i - 1];
    assert items[n - 1].key == n - m;
  }

  lemma SubHasKey<K, V>(xs: seq<Item<K, V>>, ys: seq<Item<K, V>>, k: K)
    requires Sub(xs, ys) && HasKey(xs, k)
    ensures HasKey(ys, k)
  {
    var i :| 0 <= i < |xs| && xs[i].key == k;
    SubMember(xs, ys, i);
  }

  lemma LastPut(ops: seq<Op<nat, nat>>, u: nat, small: Bounds, large: Bounds, largest: nat, m: nat)
    requires Splits(small, u, m) && u <= largest && small.entries <= large.entries
    requires large.entries * largest <= large.bytes < WORD && large.bytes > 0
    requires After(ops, small, Capped(largest)) == Row(large.entries, large.entries - m, u)
    requires After(ops, large, Capped(largest)) == Turned(large.entries, large.entries - m, u)
    ensures var more := ops + [DoPut(large.entries, 0)];
      && HasKey(After(more, small, Capped(largest)), large.entries - m)
      && !HasKey(After(more, large, Capped(largest)), large.entries - m)
  {
    var n := large.entries;
    AfterSnoc(ops, DoPut(n, 0), small, Capped(largest));
    AfterSnoc(ops, DoPut(n, 0), large, Capped(largest));
    LastPutSmall(n, u, small, m);
    LastPutLarge(n, u, large, largest, m);
  }

  lemma TightBreaks(u: nat, small: Bounds, large: Bounds, largest: nat, m: nat) returns (ops: seq<Op<nat, nat>>)
    requires Splits(small, u, m) && u <= largest && small.entries <= large.entries
    requires large.entries * largest <= large.bytes < WORD && large.bytes > 0
    ensures !Sub(After(ops, small, Capped(largest)), After(ops, large, Capped(largest)))
  {
    var n := large.entries;
    var front := Puts(n, u) + Gets(n - m);
    AfterGets(n - m, u, small, large, largest, m);
    LastPut(front, u, small, large, largest, m);
    ops := front + [DoPut(n, 0)];
    var xs, ys := After(ops, small, Capped(largest)), After(ops, large, Capped(largest));
    if Sub(xs, ys) {
      SubHasKey(xs, ys, n - m);
    }
  }

  // How often u goes into a bound.
  function Often(bytes: nat, u: nat): (m: nat)
    requires u > 0
    ensures m * u <= bytes < (m + 1) * u
    decreases bytes
  {
    if bytes < u then 0 else
      var m := Often(bytes - u, u);
      OneMore(m, u);
      OneMore(m + 1, u);
      m + 1
  }

  lemma OftenSelf(u: nat)
    requires u > 0
    ensures Often(u, u) == 1
  {
    assert Often(0, u) == 0;
  }

  // A byte bound that is not slack splits a row of items of some weight.
  lemma TightSplits(small: Bounds, large: Bounds, largest: nat) returns (u: nat, m: nat)
    requires 2 <= small.entries <= large.entries && 0 < small.bytes < small.entries * largest
    requires large.entries * largest <= large.bytes < WORD
    ensures Splits(small, u, m) && u <= largest
  {
    PositiveFactor(small.entries, largest);
    u := if largest <= small.bytes then largest else small.bytes;
    m := Often(small.bytes, u);
    WeighIs(m, u);
    WeighIs(m + 1, u);
    OneMore(0, u);
    OftenSelf(u);
    if u == largest && m >= small.entries {
      TimesGrows(small.entries, m, u);
    }
    TimesGrows(m + 1, small.entries, u);
    TimesGrowsRight(small.entries, u, largest);
    TimesGrows(small.entries, large.entries, largest);
  }

  lemma PositiveFactor(a: nat, b: nat)
    requires a * b > 0
    ensures b > 0
  {
  }

  lemma TimesGrowsRight(a: nat, b: nat, c: nat)
    requires b <= c
    ensures a * b <= a * c
  {
  }

  // ----- The condition -----

  ghost predicate AlwaysInside(small: Bounds, large: Bounds, largest: nat) {
    forall ops: seq<Op<nat, nat>> :: Sub(After(ops, small, Capped(largest)), After(ops, large, Capped(largest)))
  }

  /**
   A large cache whose byte bound never decides, given all weights up to the largest: the small
   one stays inside it exactly if it is switched off, holds one entry, or has a slack bound itself.
   */
  lemma SlackNeededExactly(small: Bounds, large: Bounds, largest: nat)
    requires small.entries <= large.entries && small.bytes < WORD
    requires 0 < large.bytes < WORD && large.entries * largest <= large.bytes
    ensures AlwaysInside(small, large, largest)
       <==> (small.entries <= 1 || small.bytes == 0 || small.entries * largest <= small.bytes)
  {
    if small.entries >= 2 && 0 < small.bytes < small.entries * largest {
      var u, m := TightSplits(small, large, largest);
      var ops := TightBreaks(u, small, large, largest, m);
    } else {
      forall ops: seq<Op<nat, nat>>
        ensures Sub(After(ops, small, Capped(largest)), After(ops, large, Capped(largest)))
      {
        LooseInside(ops, small, large, largest);
      }
    }
  }

  lemma LooseInside(ops: seq<Op<nat, nat>>, small: Bounds, large: Bounds, largest: nat)
    requires small.entries <= large.entries && small.bytes < WORD
    requires 0 < large.bytes < WORD && large.entries * largest <= large.bytes
    requires small.entries <= 1 || small.bytes == 0 || small.entries * largest <= small.bytes
    ensures Sub(After(ops, small, Capped(largest)), After(ops, large, Capped(largest)))
  {
    if small.entries == 0 || small.bytes == 0 {
      DisabledRun(ops, small, Capped(largest));
    } else if small.entries == 1 {
      TimesGrows(1, large.entries, largest);
      SingleRun(ops, small, large, Capped(largest));
    } else {
      SmallInsideLarge(ops, small, large, Capped(largest), largest);
    }
  }
}
