/** The 32-level binary trie, as linked nodes, against a map from keys to values. */
module BitwiseTrie {
  import opened Basics

  const BITS: nat := 32
  const KEYS: nat := 0x1_0000_0000

  // `key >> n`.
  function Shr(key: nat, n: nat): nat {
    if n == 0 then key else Shr(key, n - 1) / 2
  }

  function Pow2(n: nat): nat {
    if n == 0 then 1 else 2 * Pow2(n - 1)
  }

  lemma {:induction false} ShrBound(key: nat, n: nat, m: nat)
    requires key < Pow2(n + m)
    ensures Shr(key, n) < Pow2(m)
  {
    if n > 0 {
      ShrBound(key, n - 1, m + 1);
    }
  }

  lemma KeysArePowers()
    ensures Pow2(BITS) == KEYS
  {
    assert Pow2(8) == 256;
    assert Pow2(16) == 65536;
    assert Pow2(24) == 0x100_0000;
  }

  lemma ShrAll(key: nat)
    requires key < KEYS
    ensures Shr(key, BITS) == 0
  {
    KeysArePowers();
    ShrBound(key, BITS, 0);
  }

  // The position of a node: its depth, and the bits on the way to it.
  datatype Path = Top | Step(parent: Path, bit: nat)
  datatype Place = Place(depth: nat, path: Path)

  function Child(p: Place, bit: nat): Place {
    Place(p.depth + 1, Step(p.path, bit))
  }

  // The walk for a key after `depth` steps, and where it is then.
  function Steps(key: nat, depth: nat): Path
    requires depth <= BITS
  {
    if depth == 0 then Top else Step(Steps(key, depth - 1), Shr(key, BITS - depth) % 2)
  }

  function OnPath(key: nat, depth: nat): Place
    requires depth <= BITS
  {
    Place(depth, Steps(key, depth))
  }

  function Leaf(key: nat): Place {
    OnPath(key, BITS)
  }

  function Prefix(path: Path): nat {
    match path
    case Top => 0
    case Step(parent, bit) => 2 * Prefix(parent) + bit
  }

  lemma {:induction false} StepsSpellKey(key: nat, depth: nat)
    requires key < KEYS && depth <= BITS
    ensures Prefix(Steps(key, depth)) == Shr(key, BITS - depth)
  {
    if depth == 0 {
      ShrAll(key);
    } else {
      StepsSpellKey(key, depth - 1);
    }
  }

  lemma LeavesDiffer(a: nat, b: nat)
    requires a < KEYS && b < KEYS && Leaf(a) == Leaf(b)
    ensures a == b
  {
    StepsSpellKey(a, BITS);
    StepsSpellKey(b, BITS);
  }

  class Node<T> {
    var zero: Node?<T>
    var one: Node?<T>
    var value: Option<T>
    ghost const place: Place

    constructor (ghost place: Place)
      ensures zero == null && one == null && value == None && this.place == place
    {
      zero, one, value := null, null, None;
      this.place := place;
    }

    function Next(bit: nat): Node?<T>
      reads this
    {
      if bit == 0 then zero else one
    }
  }

  class Trie<T> {
    const root: Node<T>
    ghost var at: map<Place, Node<T>>     // every node of the tree
    ghost var contents: map<nat, T>       // what has been inserted and not removed
    ghost var repr: set<Node<T>>

    ghost function NodeAt(p: Place): Node?<T>
      reads this
    {
      if p in at then at[p] else null
    }

    // Nodes are linked as their places say.
    ghost predicate Linked()
      reads this, repr
    {
      && NodeAt(Place(0, Top)) == root
      && (forall p {:trigger at[p]} :: p in at ==> at[p] in repr && at[p].place == p)
      && (forall p, bit {:trigger Child(p, bit)} :: Child(p, bit) in at ==> p in at)
      && (forall p {:trigger at[p].zero} :: p in at ==> at[p].zero == NodeAt(Child(p, 0)))
      && (forall p {:trigger at[p].one} :: p in at ==> at[p].one == NodeAt(Child(p, 1)))
    }

    ghost predicate Valid()
      reads this, repr
    {
      && Linked()
      && (forall k {:trigger k in contents} :: k in contents ==> k < KEYS && Leaf(k) in at)
      && (forall k: nat {:trigger Leaf(k)} :: k < KEYS && Leaf(k) in at ==>
            at[Leaf(k)].value == if k in contents then Some(contents[k]) else None)
    }

    constructor ()
      ensures Valid() && contents == map[] && fresh(repr)
    {
      var r := new Node<T>(Place(0, Top));
      root := r;
      at, contents, repr := map[Place(0, Top) := r], map[], {r};
    }

    // A node at the end of the path needs all nodes on the path.
    lemma PathExists(key: nat, depth: nat)
      requires Linked() && depth <= BITS && Leaf(key) in at
      ensures OnPath(key, depth) in at
      decreases BITS - depth
    {
      if depth < BITS {
        PathExists(key, depth + 1);
        assert Child(OnPath(key, depth), Shr(key, BITS - depth - 1) % 2) == OnPath(key, depth + 1);
      }
    }

    method Search(key: nat) returns (r: Option<T>)
      requires Valid() && key < KEYS
      ensures r == if key in contents then Some(contents[key]) else None
    {
      var current := root;
      var i := BITS;
      while i > 0
        invariant 0 <= i <= BITS
        invariant OnPath(key, BITS - i) in at && current == at[OnPath(key, BITS - i)]
      {
        i := i - 1;
        var bit := Shr(key, i) % 2;
        ghost var p := OnPath(key, BITS - i - 1);
        assert Child(p, bit) == OnPath(key, BITS - i);
        var next := current.Next(bit);
        if next == null {
          if Leaf(key) in at {
            PathExists(key, BITS - i);
          }
          assert key !in contents;
          return None;
        }
        current := next;
      }
      assert OnPath(key, BITS) == Leaf(key);
      return current.value;
    }

    // Hangs a new node below another.
    method Attach(node: Node<T>, bit: nat, child: Node<T>)
      requires Linked() && bit < 2 && child !in repr && child.zero == null && child.one == null
      requires node.place in at && at[node.place] == node
      requires child.place == Child(node.place, bit) && child.place !in at
      modifies this`at, this`repr, node`zero, node`one
      ensures Linked() && repr == old(repr) + {child} && at == old(at)[child.place := child]
    {
      ghost var p := node.place;
      if bit == 0 {
        node.zero := child;
      } else {
        node.one := child;
      }
      at := at[child.place := child];
      repr := repr + {child};
      assert forall q {:trigger at[q].zero} :: q in old(at) && q != p ==> at[q].zero == NodeAt(Child(q, 0));
      assert forall q {:trigger at[q].one} :: q in old(at) && q != p ==> at[q].one == NodeAt(Child(q, 1));
    }

    // Allocates the missing child of a node.
    method AddChild(node: Node<T>, bit: nat) returns (child: Node<T>)
      requires Valid() && bit < 2
      requires node.place in at && at[node.place] == node
      requires Child(node.place, bit) !in at
      modifies this`at, this`repr, node`zero, node`one
      ensures Valid() && repr == old(repr) + {child} && fresh(child)
      ensures child.place == Child(node.place, bit) && at == old(at)[child.place := child]
    {
      child := new Node<T>(Child(node.place, bit));
      Attach(node, bit, child);
    }

    method Insert(key: nat, value: T)
      requires Valid() && key < KEYS
      modifies this, repr
      ensures Valid() && contents == old(contents)[key := value] && fresh(repr - old(repr))
    {
      var current := root;
      var i := BITS;
      while i > 0
        invariant 0 <= i <= BITS
        invariant Valid() && contents == old(contents) && fresh(repr - old(repr))
        invariant OnPath(key, BITS - i) in at && current == at[OnPath(key, BITS - i)]
      {
        i := i - 1;
        var bit := Shr(key, i) % 2;
        ghost var p := OnPath(key, BITS - i - 1);
        assert Child(p, bit) == OnPath(key, BITS - i);
        var next := current.Next(bit);
        if next == null {
          next := AddChild(current, bit);
        }
        current := next;
      }
      assert OnPath(key, BITS) == Leaf(key);
      forall k: nat | k < KEYS && Leaf(k) == Leaf(key)
        ensures k == key
      {
        LeavesDiffer(k, key);
      }
      current.value := Some(value);
      contents := contents[key := value];
    }

    method Remove(key: nat) returns (existed: bool)
      requires Valid() && key < KEYS
      modifies this`contents, repr
      ensures Valid() && contents == old(contents) - {key}
      ensures existed <==> key in old(contents)
    {
      var current := root;
      var i := BITS;
      while i > 0
        invariant 0 <= i <= BITS
        invariant OnPath(key, BITS - i) in at && current == at[OnPath(key, BITS - i)]
      {
        i := i - 1;
        var bit := Shr(key, i) % 2;
        ghost var p := OnPath(key, BITS - i - 1);
        assert Child(p, bit) == OnPath(key, BITS - i);
        var next := current.Next(bit);
        if next == null {
          if Leaf(key) in at {
            PathExists(key, BITS - i);
          }
          assert key !in contents;
          return false;
        }
        current := next;
      }
      assert OnPath(key, BITS) == Leaf(key);
      forall k: nat | k < KEYS && Leaf(k) == Leaf(key)
        ensures k == key
      {
        LeavesDiffer(k, key);
      }
      existed := current.value.Some?;
      current.value := None;
      contents := contents - {key};
    }
  }
}
