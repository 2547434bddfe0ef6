/** The Bloom filter: three FNV-1a hashes into one array of bits. */
module BloomFilter {
  import opened Basics

  type Byte = b: nat | b < 256
  type Bytes = seq<Byte>

  const PRIME: nat := 1099511628211
  const SEEDS: seq<nat> := [0xcbf29ce484222325, 0x811c9dc5, 0x100000001b3]

  // One step of FNV-1a on a 64-bit word: exclusive or into the lowest byte, then a wrapping product.
  function Mix(hash: nat, b: Byte): nat {
    var low := ((hash % 256) as bv8 ^ b as bv8) as nat;
    (hash - hash % 256 + low) * PRIME % WORD
  }

  ghost function Fnv(data: Bytes, seed: nat): nat {
    if data == [] then seed else Mix(Fnv(data[..|data| - 1], seed), data[|data| - 1])
  }

  method Fnv1aHash(data: Bytes, seed: nat) returns (hash: nat)
    ensures hash == Fnv(data, seed)
  {
    hash := seed;
    for i := 0 to |data|
      invariant hash == Fnv(data[..i], seed)
    {
      assert data[..i + 1][..i] == data[..i];
      hash := Mix(hash, data[i]);
    }
    assert data[..|data|] == data;
  }

  // The bit, of n, that the data hashes to under the k-th seed.
  ghost function Slot(data: Bytes, k: nat, n: nat): (r: nat)
    requires k < |SEEDS| && n > 0
    ensures r < n
  {
    Fnv(data, SEEDS[k]) % n
  }

  // The data hashes to bit i under one of the first k seeds.
  ghost predicate MarksBy(data: Bytes, i: int, n: nat, k: nat)
    requires k <= |SEEDS| && n > 0
  {
    exists j: nat :: j < k && i == Slot(data, j, n)
  }

  lemma MarksNext(data: Bytes, i: int, n: nat, k: nat)
    requires k < |SEEDS| && n > 0
    ensures MarksBy(data, i, n, k + 1) <==> i == Slot(data, k, n) || MarksBy(data, i, n, k)
  {}

  ghost predicate Marks(data: Bytes, i: int, n: nat)
    requires n > 0
  {
    MarksBy(data, i, n, |SEEDS|)
  }

  class Bloom {
    const bits: array<bool>
    ghost var added: set<Bytes>

    // Bit i belongs to something added.
    ghost predicate Hit(i: int)
      requires bits.Length > 0
      reads this
    {
      exists d :: d in added && Marks(d, i, bits.Length)
    }

    // A bit is set exactly when something added hashes to it.
    ghost predicate Valid()
      reads this, bits
    {
      && (bits.Length == 0 ==> added == {})
      && forall i :: 0 <= i < bits.Length ==> (bits[i] <==> Hit(i))
    }

    constructor (size: nat)
      ensures Valid() && added == {} && fresh(bits) && bits.Length == size
    {
      bits := new bool[size](_ => false);
      added := {};
    }

    // Division by the size makes no sense for an empty array.
    method Add(data: Bytes)
      requires Valid() && bits.Length > 0
      modifies this, bits
      ensures Valid() && added == old(added) + {data}
    {
      for k := 0 to |SEEDS|
        invariant added == old(added)
        invariant forall i :: 0 <= i < bits.Length ==> (bits[i] <==> old(Hit(i)) || MarksBy(data, i, bits.Length, k))
      {
        var hash := Fnv1aHash(data, SEEDS[k]);
        var slot := hash % bits.Length;
        assert slot == Slot(data, k, bits.Length);
        bits[slot] := true;
        forall i | 0 <= i < bits.Length
          ensures MarksBy(data, i, bits.Length, k + 1) <==> i == slot || MarksBy(data, i, bits.Length, k)
        {
          MarksNext(data, i, bits.Length, k);
        }
      }
      added := added + {data};
      forall i | 0 <= i < bits.Length
        ensures Hit(i) <==> old(Hit(i)) || Marks(data, i, bits.Length)
      {
        if Marks(data, i, bits.Length) {
          assert data in added;
        }
      }
    }

    // Membership may be claimed for data never added, never denied to data added.
    method Contains(data: Bytes) returns (r: bool)
      requires Valid() && bits.Length > 0
      ensures r <==> forall i | 0 <= i < bits.Length && Marks(data, i, bits.Length) :: Hit(i)
      ensures data in added ==> r
    {
      for k := 0 to |SEEDS|
        invariant forall j :: 0 <= j < k ==> Hit(Slot(data, j, bits.Length))
      {
        var hash := Fnv1aHash(data, SEEDS[k]);
        var slot := hash % bits.Length;
        if !bits[slot] {
          assert slot == Slot(data, k, bits.Length);
          assert Marks(data, slot, bits.Length);
          return false;
        }
      }
      return true;
    }

    method Clear()
      requires Valid()
      modifies this, bits
      ensures Valid() && added == {}
    {
      for i := 0 to bits.Length
        invariant forall j :: 0 <= j < i ==> !bits[j]
      {
        bits[i] := false;
      }
      added := {};
    }
  }
}
