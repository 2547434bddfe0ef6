/** The weighted LRU cache as operations on its recency order, most recent first. */
module LruSpec {
  import opened Basics

  datatype Item<K, V> = Item(key: K, value: V, weight: nat)

  // ----- The recency order -----

  predicate HasKey<K(==), V>(items: seq<Item<K, V>>, k: K) {
    exists i :: 0 <= i < |items| && items[i].key == k
  }

  ghost predicate Distinct<K, V>(items: seq<Item<K, V>>) {
    forall i, j :: 0 <= i < j < |items| ==> items[i].key != items[j].key
  }

  function Total<K, V>(items: seq<Item<K, V>>): nat {
    if items == [] then 0 else Total(items[..|items| - 1]) + items[|items| - 1].weight
  }

  function Drop<K(==), V>(items: seq<Item<K, V>>, k: K): (r: seq<Item<K, V>>)
    ensures |r| <= |items|
  {
    if items == [] then []
    else if items[0].key == k then items[1..]
    else [items[0]] + Drop(items[1..], k)
  }

  // The item of a key that is present.
  function Lookup<K(==), V>(items: seq<Item<K, V>>, k: K): (r: Item<K, V>)
    requires HasKey(items, k)
    ensures r in items && r.key == k
  {
    if items[0].key == k then items[0] else Lookup(items[1..], k)
  }

  // ----- Operations -----

  // total_weight_ is a std::size_t, so the byte test sees the sum modulo WORD.
  predicate TooBig<K, V>(items: seq<Item<K, V>>, maxEntries: nat, maxBytes: nat) {
    items != [] && (|items| > maxEntries || Total(items) % WORD > maxBytes)
  }

  function Evict<K, V>(items: seq<Item<K, V>>, maxEntries: nat, maxBytes: nat): seq<Item<K, V>> {
    if TooBig(items, maxEntries, maxBytes) then Evict(items[..|items| - 1], maxEntries, maxBytes) else items
  }

  function Get<K(==), V>(items: seq<Item<K, V>>, k: K): seq<Item<K, V>> {
    if HasKey(items, k) then [Lookup(items, k)] + Drop(items, k) else items
  }

  function Put<K(==), V>(items: seq<Item<K, V>>, x: Item<K, V>, maxEntries: nat, maxBytes: nat): seq<Item<K, V>> {
    if maxEntries == 0 || maxBytes == 0 then items
    else Evict([x] + Drop(items, x.key), maxEntries, maxBytes)
  }

  // ----- What eviction leaves -----

  predicate Fits<K, V>(items: seq<Item<K, V>>, maxEntries: nat, maxBytes: nat) {
    |items| <= maxEntries && Total(items) <= maxBytes
  }

  lemma {:induction false} TotalPrefix<K, V>(items: seq<Item<K, V>>, n: nat)
    requires n <= |items|
    ensures Total(items[..n]) <= Total(items)
  {
    if n < |items| {
      assert items[..|items| - 1][..n] == items[..n];
      TotalPrefix(items[..|items| - 1], n);
    } else {
      assert items[..n] == items;
    }
  }

  // What the loop test of evict_if_needed lets pass: the sum is compared as a 64-bit number.
  predicate Passes<K, V>(items: seq<Item<K, V>>, maxEntries: nat, maxBytes: nat) {
    |items| <= maxEntries && Total(items) % WORD <= maxBytes
  }

  /** Eviction leaves exactly the longest prefix of the recency order that passes, whatever the weights. */
  lemma {:induction false} EvictLeavesLongest<K, V>(items: seq<Item<K, V>>, maxEntries: nat, maxBytes: nat, n: nat)
    requires n <= |items|
    ensures var r := Evict(items, maxEntries, maxBytes);
      && r <= items && Passes(r, maxEntries, maxBytes)
      && (Passes(items[..n], maxEntries, maxBytes) ==> n <= |r|)
  {
    if TooBig(items, maxEntries, maxBytes) {
      var rest := items[..|items| - 1];
      if n < |items| {
        assert rest[..n] == items[..n];
        EvictLeavesLongest(rest, maxEntries, maxBytes, n);
      } else {
        assert items[..n] == items;
        EvictLeavesLongest(rest, maxEntries, maxBytes, 0);
      }
    }
  }

  lemma PassesIsFits<K, V>(items: seq<Item<K, V>>, n: nat, maxEntries: nat, maxBytes: nat)
    requires Total(items) < WORD && n <= |items|
    ensures Passes(items[..n], maxEntries, maxBytes) <==> Fits(items[..n], maxEntries, maxBytes)
  {
    TotalPrefix(items, n);
    var sum := Total(items[..n]);
    assert sum % WORD == sum;
  }

  /** Without wrap-around that is the longest prefix that fits both bounds. */
  lemma EvictLeavesLongestFit<K, V>(items: seq<Item<K, V>>, maxEntries: nat, maxBytes: nat, n: nat)
    requires Total(items) < WORD && n <= |items|
    ensures var r := Evict(items, maxEntries, maxBytes);
      && r <= items && Fits(r, maxEntries, maxBytes)
      && (Fits(items[..n], maxEntries, maxBytes) ==> n <= |r|)
  {
    EvictLeavesLongest(items, maxEntries, maxBytes, n);
    var r := Evict(items, maxEntries, maxBytes);
    assert r == items[..|r|];
    PassesIsFits(items, |r|, maxEntries, maxBytes);
    PassesIsFits(items, n, maxEntries, maxBytes);
  }

  // A value heavier than max_bytes empties the cache when the sum does not wrap around.
  lemma HeavyValueEmptiesCache<K, V>(items: seq<Item<K, V>>, x: Item<K, V>, maxEntries: nat, maxBytes: nat)
    requires maxEntries > 0 && maxBytes > 0 && x.weight > maxBytes
    requires Total([x] + Drop(items, x.key)) < WORD
    ensures Put(items, x, maxEntries, maxBytes) == []
  {
    var order := [x] + Drop(items, x.key);
    EvictLeavesLongestFit(order, maxEntries, maxBytes, 0);
    if Put(items, x, maxEntries, maxBytes) != [] {
      FirstWeight(Put(items, x, maxEntries, maxBytes));
    }
  }

  lemma FirstWeight<K, V>(items: seq<Item<K, V>>)
    requires items != []
    ensures items[0].weight <= Total(items)
  {
    TotalPrefix(items, 1);
    assert items[..1][..0] == [];
  }

  // ----- Drop -----

  lemma HasKeyTail<K, V>(items: seq<Item<K, V>>, k: K)
    requires items != []
    ensures HasKey(items, k) <==> items[0].key == k || HasKey(items[1..], k)
  {
    var rest := items[1..];
    if i :| 0 <= i < |rest| && rest[i].key == k {
      assert items[i + 1].key == k;
    }
    if i :| 1 <= i < |items| && items[i].key == k {
      assert rest[i - 1].key == k;
    }
  }

  lemma {:induction false} DropSize<K, V>(items: seq<Item<K, V>>, k: K)
    ensures |Drop(items, k)| == |items| - (if HasKey(items, k) then 1 else 0)
    ensures !HasKey(items, k) ==> Drop(items, k) == items
  {
    if items != [] {
      var rest := items[1..];
      HasKeyTail(items, k);
      if items[0].key != k {
        DropSize(rest, k);
        assert items == [items[0]] + rest;
      }
    }
  }

  lemma {:induction false} DropMembers<K, V>(items: seq<Item<K, V>>, k: K)
    ensures forall x :: x in Drop(items, k) ==> x in items
    ensures Distinct(items) ==> Distinct(Drop(items, k)) && !HasKey(Drop(items, k), k)
  {
    if items != [] && items[0].key != k {
      DropMembers(items[1..], k);
      if Distinct(items) {
        assert forall x :: x in items[1..] ==> x.key != items[0].key;
      }
    }
  }

  lemma FrontDistinct<K, V>(x: Item<K, V>, items: seq<Item<K, V>>)
    requires Distinct(items) && !HasKey(items, x.key)
    ensures Distinct([x] + items)
  {
  }

  lemma {:induction false} DropAt<K, V>(items: seq<Item<K, V>>, i: nat)
    requires i < |items| && Distinct(items)
    ensures Drop(items, items[i].key) == items[..i] + items[i + 1..]
    ensures Lookup(items, items[i].key) == items[i]
  {
    if i > 0 {
      DropAt(items[1..], i - 1);
    }
  }

  // ----- What the operations mean for the order -----

  // The place of the only item with this key, or the length.
  ghost predicate PlaceOf<K, V>(items: seq<Item<K, V>>, k: K, i: nat) {
    i <= |items| && if i < |items| then items[i].key == k else !HasKey(items, k)
  }

  function TakenOut<K, V>(items: seq<Item<K, V>>, i: nat): seq<Item<K, V>>
    requires i <= |items|
  {
    if i == |items| then items else items[..i] + items[i + 1..]
  }

  /** A hit moves its item to the front and leaves the others in their order; a miss changes nothing. */
  lemma GetMovesToFront<K, V>(items: seq<Item<K, V>>, k: K, i: nat)
    requires Distinct(items) && PlaceOf(items, k, i)
    ensures Get(items, k) == if i == |items| then items else [items[i]] + TakenOut(items, i)
  {
    if i < |items| {
      DropAt(items, i);
    }
  }

  /**
   A put leaves the longest passing prefix of the new item followed by the others in their order,
   whatever the weights; a cache that is switched off keeps what it has.
   */
  lemma PutLeavesLongest<K, V>(
      items: seq<Item<K, V>>, x: Item<K, V>, i: nat, maxEntries: nat, maxBytes: nat, n: nat)
    requires Distinct(items) && PlaceOf(items, x.key, i) && n <= 1 + |TakenOut(items, i)|
    ensures var r, order := Put(items, x, maxEntries, maxBytes), [x] + TakenOut(items, i);
      if maxEntries == 0 || maxBytes == 0 then r == items
      else r <= order && Passes(r, maxEntries, maxBytes) && (Passes(order[..n], maxEntries, maxBytes) ==> n <= |r|)
  {
    if i < |items| {
      DropAt(items, i);
    } else {
      DropSize(items, x.key);
    }
    EvictLeavesLongest([x] + TakenOut(items, i), maxEntries, maxBytes, n);
  }

  lemma {:induction false} TotalConcat<K, V>(a: seq<Item<K, V>>, b: seq<Item<K, V>>)
    ensures Total(a + b) == Total(a) + Total(b)
  {
    if b == [] {
      assert a + b == a;
    } else {
      assert (a + b)[..|a + b| - 1] == a + b[..|b| - 1];
      TotalConcat(a, b[..|b| - 1]);
    }
  }

  lemma TotalFront<K, V>(x: Item<K, V>, items: seq<Item<K, V>>)
    ensures Total([x] + items) == x.weight + Total(items)
  {
    TotalConcat([x], items);
    assert Total([x]) == x.weight by { assert [x][..0] == []; }
  }

  lemma TotalSplit<K, V>(items: seq<Item<K, V>>, i: nat)
    requires i <= |items|
    ensures Total(items) == Total(items[..i]) + Total(items[i..])
  {
    assert items == items[..i] + items[i..];
    TotalConcat(items[..i], items[i..]);
  }

  lemma TotalWithout<K, V>(items: seq<Item<K, V>>, i: nat)
    requires i < |items|
    ensures Total(items) == Total(items[..i] + items[i + 1..]) + items[i].weight
  {
    var a, b := items[..i], items[i + 1..];
    assert Total(items[i..]) == items[i].weight + Total(b) by {
      assert items[i..] == [items[i]] + b;
      TotalFront(items[i], b);
    }
    TotalSplit(items, i);
    TotalConcat(a, b);
  }
}
