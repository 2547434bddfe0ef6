/**
 The cache object: a list of nodes in recency order, an index from keys to list nodes, and a
 running weight. A list node keeps its identity (here a number) while it moves in the list.
 */
module MemoryCache {
  import opened Basics
  import opened LruSpec

  // A std::size_t.
  type Size = n: nat | n < WORD

  // ----- The linked structure -----

  datatype Links<K, V> = Links(lru: seq<nat>, nodes: map<nat, Item<K, V>>, index: map<K, nat>)

  // The index and the nodes are inverse to each other.
  ghost predicate IndexInv<K(!new), V>(nodes: map<nat, Item<K, V>>, index: map<K, nat>) {
    && (forall id :: id in nodes ==> nodes[id].key in index && index[nodes[id].key] == id)
    && (forall k :: k in index ==> index[k] in nodes && nodes[index[k]].key == k)
  }

  ghost predicate NoRepeats<T>(s: seq<T>) {
    forall i, j :: 0 <= i < j < |s| ==> s[i] != s[j]
  }

  // The list holds exactly the nodes, each once.
  ghost predicate ListInv<K, V>(lru: seq<nat>, nodes: map<nat, Item<K, V>>) {
    && (forall id :: id in lru <==> id in nodes)
    && NoRepeats(lru)
  }

  ghost predicate Linked<K(!new), V>(l: Links<K, V>) {
    IndexInv(l.nodes, l.index) && ListInv(l.lru, l.nodes) && |l.index| == |l.lru|
  }

  // What the list holds.
  ghost function Items<K, V>(lru: seq<nat>, nodes: map<nat, Item<K, V>>): (r: seq<Item<K, V>>)
    requires ListInv(lru, nodes)
    ensures |r| == |lru| && forall i :: 0 <= i < |r| ==> r[i] == nodes[lru[i]]
  {
    seq(|lru|, i requires 0 <= i < |lru| => nodes[lru[i]])
  }

  lemma KeysDistinct<K(!new), V>(l: Links<K, V>)
    requires Linked(l)
    ensures Distinct(Items(l.lru, l.nodes))
  {
    var items := Items(l.lru, l.nodes);
    forall i, j | 0 <= i < j < |items| ensures items[i].key != items[j].key {
      assert l.lru[i] in l.nodes && l.lru[j] in l.nodes;
    }
  }

  function RemoveAt<T>(s: seq<T>, i: nat): seq<T>
    requires i < |s|
  {
    s[..i] + s[i + 1..]
  }

  // list::splice of the i-th node to the front.
  function ToFront<T>(s: seq<T>, i: nat): seq<T>
    requires i < |s|
  {
    [s[i]] + RemoveAt(s, i)
  }

  lemma RemoveMembers<T>(s: seq<T>, i: nat)
    requires i < |s|
    ensures forall x :: x in s <==> x == s[i] || x in RemoveAt(s, i)
    ensures forall x :: x in s <==> x in ToFront(s, i)
  {
    assert s == s[..i] + [s[i]] + s[i + 1..];
  }

  lemma RemoveRepeats<T>(s: seq<T>, i: nat)
    requires i < |s| && NoRepeats(s)
    ensures NoRepeats(RemoveAt(s, i)) && s[i] !in RemoveAt(s, i) && NoRepeats(ToFront(s, i))
  {
    var r := RemoveAt(s, i);
    assert forall k :: 0 <= k < |r| ==> r[k] == s[if k < i then k else k + 1];
  }

  lemma SpliceList<K, V>(lru: seq<nat>, nodes: map<nat, Item<K, V>>, i: nat)
    requires ListInv(lru, nodes) && i < |lru|
    ensures ListInv(ToFront(lru, i), nodes)
    ensures Items(ToFront(lru, i), nodes) == ToFront(Items(lru, nodes), i)
  {
    RemoveMembers(lru, i);
    RemoveRepeats(lru, i);
  }

  lemma RemoveList<K, V>(lru: seq<nat>, nodes: map<nat, Item<K, V>>, i: nat)
    requires ListInv(lru, nodes) && i < |lru|
    ensures ListInv(RemoveAt(lru, i), nodes - {lru[i]})
    ensures Items(RemoveAt(lru, i), nodes - {lru[i]}) == RemoveAt(Items(lru, nodes), i)
  {
    RemoveInv(lru, nodes, i);
    var r, rest := RemoveAt(lru, i), nodes - {lru[i]};
    forall k | 0 <= k < |r| ensures Items(r, rest)[k] == RemoveAt(Items(lru, nodes), i)[k] {
      assert r[k] == lru[if k < i then k else k + 1];
      assert r[k] in rest;
    }
  }

  lemma RemoveInv<K, V>(lru: seq<nat>, nodes: map<nat, Item<K, V>>, i: nat)
    requires ListInv(lru, nodes) && i < |lru|
    ensures ListInv(RemoveAt(lru, i), nodes - {lru[i]})
  {
    RemoveMembers(lru, i);
    RemoveRepeats(lru, i);
  }

  lemma ToFrontIsGet<K, V>(items: seq<Item<K, V>>, i: nat)
    requires i < |items| && Distinct(items)
    ensures ToFront(items, i) == Get(items, items[i].key) == [items[i]] + Drop(items, items[i].key)
    ensures Total(Get(items, items[i].key)) == Total(items)
  {
    DropAt(items, i);
    TotalWithout(items, i);
    TotalFront(items[i], Drop(items, items[i].key));
    assert items[i].key == items[i].key && HasKey(items, items[i].key);
  }

  // ----- The whole state of a cache -----

  ghost predicate Sized<K, V>(nodes: map<nat, Item<K, V>>, nextId: nat) {
    forall id :: id in nodes ==> id < nextId && nodes[id].weight < WORD
  }

  ghost predicate Good<K(!new), V>(l: Links<K, V>, nextId: nat, total: nat) {
    && Linked(l)
    && Sized(l.nodes, nextId)
    && total == Total(Items(l.lru, l.nodes)) % WORD
  }

  lemma SpliceGood<K(!new), V>(l: Links<K, V>, nextId: nat, total: nat, at: nat)
    requires Good(l, nextId, total) && at < |l.lru|
    ensures var l', items := l.(lru := ToFront(l.lru, at)), Items(l.lru, l.nodes);
      && Good(l', nextId, total)
      && Items(l'.lru, l'.nodes) == [items[at]] + Drop(items, items[at].key)
      && Items(l'.lru, l'.nodes) == Get(items, items[at].key)
  {
    KeysDistinct(l);
    SpliceList(l.lru, l.nodes, at);
    ToFrontIsGet(Items(l.lru, l.nodes), at);
  }

  // Taking one node out of all three structures.
  function Unlinked<K, V>(l: Links<K, V>, at: nat): Links<K, V>
    requires at < |l.lru| && l.lru[at] in l.nodes
  {
    Links(RemoveAt(l.lru, at), l.nodes - {l.lru[at]}, l.index - {l.nodes[l.lru[at]].key})
  }

  function Less(total: nat, weight: nat): (r: Size)
    requires weight < WORD
  {
    (total + WORD - weight) % WORD
  }

  lemma LessIsSubtraction(sum: nat, weight: nat)
    requires weight < WORD
    ensures Less((sum + weight) % WORD, weight) == sum % WORD
  {
  }

  lemma SumWithout<K, V>(items: seq<Item<K, V>>, total: nat, at: nat)
    requires at < |items| && items[at].weight < WORD && total == Total(items) % WORD
    ensures Less(total, items[at].weight) == Total(RemoveAt(items, at)) % WORD
  {
    TotalWithout(items, at);
    var sum := Total(RemoveAt(items, at));
    assert Total(items) == sum + items[at].weight;
    LessIsSubtraction(sum, items[at].weight);
  }

  lemma UnlinkedLinked<K(!new), V>(l: Links<K, V>, at: nat)
    requires Linked(l) && at < |l.lru|
    ensures l.lru[at] in l.nodes && Linked(Unlinked(l, at))
    ensures Items(Unlinked(l, at).lru, Unlinked(l, at).nodes) == RemoveAt(Items(l.lru, l.nodes), at)
  {
    RemoveList(l.lru, l.nodes, at);
  }

  lemma UnlinkGood<K(!new), V>(l: Links<K, V>, nextId: nat, total: nat, at: nat)
    requires Good(l, nextId, total) && at < |l.lru|
    ensures l.lru[at] in l.nodes && l.nodes[l.lru[at]].weight < WORD
    ensures Good(Unlinked(l, at), nextId, Less(total, l.nodes[l.lru[at]].weight))
    ensures Items(Unlinked(l, at).lru, Unlinked(l, at).nodes) == RemoveAt(Items(l.lru, l.nodes), at)
  {
    UnlinkedLinked(l, at);
    SumWithout(Items(l.lru, l.nodes), total, at);
  }

  function More(total: nat, weight: nat): (r: Size) {
    (total + weight) % WORD
  }

  lemma MoreIsAddition(sum: nat, weight: nat)
    ensures More(sum % WORD, weight) == (sum + weight) % WORD
  {
  }

  lemma SumFront<K, V>(x: Item<K, V>, items: seq<Item<K, V>>, total: nat)
    requires total == Total(items) % WORD
    ensures More(total, x.weight) == Total([x] + items) % WORD
  {
    TotalFront(x, items);
    MoreIsAddition(Total(items), x.weight);
  }

  // list::emplace_front and unordered_map::emplace of a new node.
  function Inserted<K, V>(l: Links<K, V>, id: nat, x: Item<K, V>): Links<K, V> {
    Links([id] + l.lru, l.nodes[id := x], l.index[x.key := id])
  }

  lemma InsertedLinked<K(!new), V>(l: Links<K, V>, id: nat, x: Item<K, V>)
    requires Linked(l) && id !in l.nodes && x.key !in l.index
    ensures Linked(Inserted(l, id, x))
    ensures Items(Inserted(l, id, x).lru, Inserted(l, id, x).nodes) == [x] + Items(l.lru, l.nodes)
  {
    var l' := Inserted(l, id, x);
    assert ListInv(l'.lru, l'.nodes) by { InsertedList(l.lru, l.nodes, id, x); }
    assert IndexInv(l'.nodes, l'.index);
    InsertedList(l.lru, l.nodes, id, x);
  }

  lemma InsertedList<K, V>(lru: seq<nat>, nodes: map<nat, Item<K, V>>, id: nat, x: Item<K, V>)
    requires ListInv(lru, nodes) && id !in nodes
    ensures ListInv([id] + lru, nodes[id := x])
    ensures Items([id] + lru, nodes[id := x]) == [x] + Items(lru, nodes)
  {
    var more := [id] + lru;
    assert NoRepeats(more) by {
      forall i, j | 0 <= i < j < |more| ensures more[i] != more[j] {
        assert i == 0 ==> more[j] in lru;
      }
    }
    assert forall y :: y in more <==> y == id || y in lru;
  }

  lemma DropAbsent<K(!new), V>(l: Links<K, V>, k: K)
    requires Linked(l) && k !in l.index
    ensures Drop(Items(l.lru, l.nodes), k) == Items(l.lru, l.nodes)
  {
    FindNode(l, k);
    DropSize(Items(l.lru, l.nodes), k);
  }

  lemma InsertGood<K(!new), V>(l: Links<K, V>, nextId: nat, total: nat, x: Item<K, V>)
    requires Good(l, nextId, total) && x.key !in l.index && x.weight < WORD
    ensures Good(Inserted(l, nextId, x), nextId + 1, More(total, x.weight))
    ensures Items(Inserted(l, nextId, x).lru, Inserted(l, nextId, x).nodes)
         == [x] + Drop(Items(l.lru, l.nodes), x.key)
  {
    var items, l' := Items(l.lru, l.nodes), Inserted(l, nextId, x);
    InsertedLinked(l, nextId, x);
    assert Sized(l'.nodes, nextId + 1) by { InsertedSized(l.nodes, nextId, x); }
    SumFront(x, items, total);
    DropAbsent(l, x.key);
  }

  lemma InsertedSized<K, V>(nodes: map<nat, Item<K, V>>, nextId: nat, x: Item<K, V>)
    requires Sized(nodes, nextId) && x.weight < WORD
    ensures Sized(nodes[nextId := x], nextId + 1)
  {
  }

  // Overwriting the value and weight of one node in place.
  lemma OverwriteLinked<K(!new), V>(l: Links<K, V>, at: nat, x: Item<K, V>)
    requires Linked(l) && at < |l.lru| && l.lru[at] in l.nodes && l.nodes[l.lru[at]].key == x.key
    ensures Linked(l.(nodes := l.nodes[l.lru[at] := x]))
    ensures Items(l.lru, l.nodes[l.lru[at] := x]) == Items(l.lru, l.nodes)[at := x]
  {
  }

  lemma SumOverwrite<K, V>(items: seq<Item<K, V>>, at: nat, x: Item<K, V>, total: nat)
    requires at < |items| && items[at].weight < WORD && total == Total(items) % WORD
    ensures More(Less(total, items[at].weight), x.weight) == Total(items[at := x]) % WORD
  {
    SumWithout(items, total, at);
    MoreIsAddition(Total(RemoveAt(items, at)), x.weight);
    assert RemoveAt(items[at := x], at) == RemoveAt(items, at);
    TotalWithout(items[at := x], at);
  }

  lemma OverwriteGood<K(!new), V>(l: Links<K, V>, nextId: nat, total: nat, at: nat, x: Item<K, V>)
    requires Good(l, nextId, total) && at < |l.lru| && x.weight < WORD
    requires l.lru[at] in l.nodes && l.nodes[l.lru[at]].key == x.key
    ensures l.nodes[l.lru[at]].weight < WORD
    ensures Good(l.(nodes := l.nodes[l.lru[at] := x]), nextId, More(Less(total, l.nodes[l.lru[at]].weight), x.weight))
    ensures Items(l.lru, l.nodes[l.lru[at] := x]) == Items(l.lru, l.nodes)[at := x]
  {
    OverwriteLinked(l, at, x);
    SumOverwrite(Items(l.lru, l.nodes), at, x, total);
  }

  lemma DropOverwritten<K, V>(items: seq<Item<K, V>>, at: nat, x: Item<K, V>)
    requires at < |items| && Distinct(items) && items[at].key == x.key
    ensures Distinct(items[at := x]) && Drop(items[at := x], x.key) == Drop(items, x.key)
  {
    DropAt(items, at);
    DropAt(items[at := x], at);
  }

  lemma FrontOverwritten<K, V>(items: seq<Item<K, V>>, at: nat, x: Item<K, V>)
    requires at < |items| && Distinct(items) && items[at].key == x.key
    ensures Get(items[at := x], x.key) == [x] + Drop(items, x.key)
  {
    DropOverwritten(items, at, x);
    ToFrontIsGet(items[at := x], at);
  }

  lemma FindNode<K(!new), V>(l: Links<K, V>, k: K)
    requires Linked(l)
    ensures Distinct(Items(l.lru, l.nodes))
    ensures k in l.index <==> HasKey(Items(l.lru, l.nodes), k)
    ensures k in l.index ==> exists at :: 0 <= at < |l.lru| && l.lru[at] == l.index[k]
    ensures k in l.index ==> Lookup(Items(l.lru, l.nodes), k) == l.nodes[l.index[k]]
  {
    var items := Items(l.lru, l.nodes);
    KeysDistinct(l);
    if k in l.index {
      var at :| 0 <= at < |l.lru| && l.lru[at] == l.index[k];
      assert items[at].key == k;
      DropAt(items, at);
    } else {
      forall i | 0 <= i < |items| ensures items[i].key != k {
        assert l.lru[i] in l.nodes;
      }
    }
  }

  class Cache<K(!new, ==), V> {
    const maxEntries: Size
    const maxBytes: Size
    const weightFn: V -> Size
    var links: Links<K, V>      // lru_list_ with its nodes, and map_
    var totalWeight: Size
    var nextId: nat             // no list node has this identity yet

    ghost predicate Valid()
      reads this
    {
      Good(links, nextId, totalWeight)
    }

    // The recency order.
    ghost function Contents(): seq<Item<K, V>>
      requires Valid()
      reads this
    {
      Items(links.lru, links.nodes)
    }

    constructor (maxEntries: Size, maxBytes: Size, weightFn: V -> Size)
      ensures Valid() && Contents() == []
      ensures this.maxEntries == maxEntries && this.maxBytes == maxBytes && this.weightFn == weightFn
    {
      this.maxEntries, this.maxBytes, this.weightFn := maxEntries, maxBytes, weightFn;
      links, totalWeight, nextId := Links([], map[], map[]), 0, 0;
    }

    // Stores a new structure and its sum.
    method Become(l: Links<K, V>, total: Size)
      requires Good(l, nextId, total)
      modifies this`links, this`totalWeight
      ensures Valid() && links == l && totalWeight == total && Contents() == Items(l.lru, l.nodes)
    {
      links, totalWeight := l, total;
    }

    method Relink(l: Links<K, V>)
      requires Good(l, nextId, totalWeight)
      modifies this`links
      ensures Valid() && links == l && Contents() == Items(l.lru, l.nodes)
    {
      links := l;
    }

    method Splice(at: nat)
      requires Valid() && at < |links.lru|
      modifies this`links
      ensures Valid() && Contents() == Get(old(Contents()), old(Contents())[at].key)
      ensures links.nodes == old(links.nodes) && links.index == old(links.index)
    {
      SpliceGood(links, nextId, totalWeight, at);
      var l := links.(lru := ToFront(links.lru, at));
      Relink(l);
    }

    // `get`: nullptr for an unknown key, otherwise the value, which becomes the most recent.
    method Fetch(k: K) returns (r: Option<V>)
      requires Valid()
      modifies this`links
      ensures Valid() && Contents() == Get(old(Contents()), k)
      ensures r == if HasKey(old(Contents()), k) then Some(Lookup(old(Contents()), k).value) else None
    {
      FindNode(links, k);
      if k !in links.index {
        return None;
      }
      var at :| 0 <= at < |links.lru| && links.lru[at] == links.index[k];
      Splice(at);
      return Some(links.nodes[links.index[k]].value);
    }

    // Erases one node and takes its weight off the sum.
    method Unlink(at: nat)
      requires Valid() && at < |links.lru|
      modifies this`links, this`totalWeight
      ensures Valid() && Contents() == RemoveAt(old(Contents()), at)
    {
      UnlinkGood(links, nextId, totalWeight, at);
      var l, t := Unlinked(links, at), Less(totalWeight, links.nodes[links.lru[at]].weight);
      Become(l, t);
    }

    method Erase(k: K) returns (existed: bool)
      requires Valid()
      modifies this`links, this`totalWeight
      ensures Valid() && Contents() == Drop(old(Contents()), k)
      ensures existed <==> HasKey(old(Contents()), k)
    {
      FindNode(links, k);
      if k !in links.index {
        DropSize(Contents(), k);
        return false;
      }
      var at :| 0 <= at < |links.lru| && links.lru[at] == links.index[k];
      DropAt(Contents(), at);
      Unlink(at);
      return true;
    }

    method Clear()
      requires Valid()
      modifies this`links, this`totalWeight
      ensures Valid() && Contents() == []
    {
      links, totalWeight := Links([], map[], map[]), 0;
    }

    // The loop test, told on the recency order.
    lemma TestIsTooBig()
      requires Valid()
      ensures links.lru != [] && (|links.index| > maxEntries || totalWeight > maxBytes)
         <==> TooBig(Contents(), maxEntries, maxBytes)
    {
    }

    method DropLast()
      requires Valid() && links.lru != []
      modifies this`links, this`totalWeight
      ensures Valid() && |links.lru| == |old(links.lru)| - 1
      ensures Contents() == old(Contents())[..|old(Contents())| - 1]
    {
      var last := |links.lru| - 1;
      assert RemoveAt(Contents(), last) == Contents()[..last];
      Unlink(last);
    }

    method EvictIfNeeded()
      requires Valid()
      modifies this`links, this`totalWeight
      ensures Valid() && Contents() == Evict(old(Contents()), maxEntries, maxBytes)
    {
      TestIsTooBig();
      while links.lru != [] && (|links.index| > maxEntries || totalWeight > maxBytes)
        invariant Valid()
        invariant links.lru != [] && (|links.index| > maxEntries || totalWeight > maxBytes)
             <==> TooBig(Contents(), maxEntries, maxBytes)
        invariant Evict(Contents(), maxEntries, maxBytes) == Evict(old(Contents()), maxEntries, maxBytes)
        decreases |links.lru|
      {
        DropLast();
        TestIsTooBig();
      }
    }

    // Overwrites one node where it is and corrects the sum.
    method Assign(at: nat, x: Item<K, V>)
      requires Valid() && at < |links.lru| && x.weight < WORD && Contents()[at].key == x.key
      modifies this`links, this`totalWeight
      ensures Valid() && |links.lru| == old(|links.lru|) && Contents() == old(Contents())[at := x]
    {
      assert links.lru[at] in links.nodes;
      OverwriteGood(links, nextId, totalWeight, at, x);
      var l := links.(nodes := links.nodes[links.lru[at] := x]);
      var t := More(Less(totalWeight, links.nodes[links.lru[at]].weight), x.weight);
      Become(l, t);
    }

    // The known-key branch of do_put: overwrite the node and promote it.
    method Overwrite(at: nat, x: Item<K, V>)
      requires Valid() && at < |links.lru| && x.weight < WORD && Contents()[at].key == x.key
      modifies this`links, this`totalWeight
      ensures Valid() && Contents() == [x] + Drop(old(Contents()), x.key)
    {
      KeysDistinct(links);
      FrontOverwritten(Contents(), at, x);
      Assign(at, x);
      Splice(at);
    }

    method Insert(x: Item<K, V>)
      requires Valid() && x.weight < WORD && x.key !in links.index
      modifies this`links, this`totalWeight, this`nextId
      ensures Valid() && Contents() == [x] + Drop(old(Contents()), x.key)
    {
      InsertGood(links, nextId, totalWeight, x);
      var l, t := Inserted(links, nextId, x), More(totalWeight, x.weight);
      links, totalWeight, nextId := l, t, nextId + 1;
    }

    method DoPut(k: K, value: V)
      requires Valid()
      modifies this`links, this`totalWeight, this`nextId
      ensures Valid()
      ensures Contents() == Evict([Item(k, value, weightFn(value))] + Drop(old(Contents()), k), maxEntries, maxBytes)
    {
      var x := Item(k, value, weightFn(value));
      FindNode(links, k);
      if k in links.index {
        var at :| 0 <= at < |links.lru| && links.lru[at] == links.index[k];
        Overwrite(at, x);
      } else {
        Insert(x);
      }
      EvictIfNeeded();
    }

    method Store(k: K, value: V)
      requires Valid()
      modifies this`links, this`totalWeight, this`nextId
      ensures Valid()
      ensures Contents() == Put(old(Contents()), Item(k, value, weightFn(value)), maxEntries, maxBytes)
    {
      if maxEntries == 0 || maxBytes == 0 {
        return;
      }
      DoPut(k, value);
    }
  }
}
