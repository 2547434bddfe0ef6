/** The address filter, a Bloom filter in front of a trie, against a plain set of addresses. */
module IpFilter {
  import opened BitwiseTrie
  import opened BloomFilter

  // The four bytes of an address as they lie in memory, lowest first.
  function MemoryOf(ip: nat): Bytes {
    [ip % 256, Shr(ip, 8) % 256, Shr(ip, 16) % 256, Shr(ip, 24) % 256]
  }

  lemma Twice(q: nat, p: nat)
    ensures q * (2 * p) == (2 * q) * p == 2 * (q * p) && (2 * q + 1) * p == 2 * (q * p) + p
  {
  }

  // Equal after a right shift means within one aligned block.
  lemma {:induction false} ShrBlock(x: nat, s: nat, q: nat)
    ensures Shr(x, s) == q <==> q * Pow2(s) <= x < q * Pow2(s) + Pow2(s)
  {
    if s > 0 {
      Twice(q, Pow2(s - 1));
      ShrBlock(x, s - 1, 2 * q);
      ShrBlock(x, s - 1, 2 * q + 1);
    }
  }

  // Addresses that share the leading `mask` bits, in the notation of section 3.1 of RFC 4632.
  ghost predicate SamePrefix(x: nat, ip: nat, mask: nat)
    requires mask <= BITS
  {
    Shr(x, BITS - mask) == Shr(ip, BITS - mask)
  }

  // What one addition blocks: prefixes of 24 bits and more as a block, shorter ones as the literal address only.
  ghost predicate Covers(ip: nat, mask: int, x: nat) {
    x < KEYS && if 24 <= mask <= 32 then SamePrefix(x, ip, mask) else 0 < mask < 24 && x == ip
  }

  // One line of the address list, after its text has been read.
  datatype Entry = Address(ip: nat) | Prefix(ip: nat, mask: int)

  ghost predicate Blocks(e: Entry, x: nat) {
    match e
    case Address(ip) => x == ip
    case Prefix(ip, mask) => Covers(ip, mask, x)
  }

  // A block is a run of consecutive addresses that ends before the largest 32-bit number does.
  lemma BlockIsRun(ip: nat, mask: nat)
    requires ip < KEYS && 24 <= mask <= 32
    ensures var s := BITS - mask; var base := Shr(ip, s) * Pow2(s);
            && base + Pow2(s) <= KEYS
            && forall x :: base <= x < base + Pow2(s) <==> x >= 0 && Covers(ip, mask, x)
  {
    var s := BITS - mask;
    var base := Shr(ip, s) * Pow2(s);
    ShrBlock(ip, s, Shr(ip, s));
    BlockFits(ip, s);
    forall x: nat
      ensures base <= x < base + Pow2(s) <==> SamePrefix(x, ip, mask)
    {
      ShrBlock(x, s, Shr(ip, s));
    }
  }

  lemma {:induction false} PowSum(a: nat, b: nat)
    ensures Pow2(a + b) == Pow2(a) * Pow2(b)
  {
    if a > 0 {
      PowSum(a - 1, b);
      Twice(Pow2(a - 1), Pow2(b));
    }
  }

  lemma Successor(n: nat, p: nat)
    ensures (n + 1) * p == n * p + p
  {
  }

  lemma {:induction false} Scale(q: nat, n: nat, p: nat)
    requires q < n
    ensures q * p + p <= n * p
  {
    Successor(n - 1, p);
    if q < n - 1 {
      Scale(q, n - 1, p);
    }
  }

  lemma BlockFits(ip: nat, s: nat)
    requires s <= BITS && ip < KEYS
    ensures Shr(ip, s) * Pow2(s) + Pow2(s) <= KEYS
  {
    KeysArePowers();
    ShrBound(ip, s, BITS - s);
    PowSum(BITS - s, s);
    Scale(Shr(ip, s), Pow2(BITS - s), Pow2(s));
  }

  /** An added prefix blocks exactly the addresses that share it if and only if it has 24 bits or more. */
  lemma PrefixBlockedExactly(ip: nat, mask: nat)
    requires ip < KEYS && mask <= 32
    ensures (forall x: nat :: x < KEYS ==> (Covers(ip, mask, x) <==> SamePrefix(x, ip, mask))) <==> mask >= 24
  {
    if mask < 24 {
      var x := Neighbour(ip, mask);
    }
  }

  // A block of two addresses or more has another address than the one that names it.
  lemma Neighbour(ip: nat, mask: nat) returns (x: nat)
    requires ip < KEYS && mask < BITS
    ensures x < KEYS && x != ip && SamePrefix(x, ip, mask)
  {
    var s := BITS - mask;
    var q := Shr(ip, s);
    ShrBlock(ip, s, q);
    BlockFits(ip, s);
    assert Pow2(s) == 2 * Pow2(s - 1);
    x := if ip + 1 < q * Pow2(s) + Pow2(s) then ip + 1 else ip - 1;
    ShrBlock(x, s, q);
  }

  // 10.0.0.0/8, the example of the header, leaves 10.0.0.1 alone.
  lemma TenSlashEight()
    ensures SamePrefix(0x0A00_0001, 0x0A00_0000, 8) && !Covers(0x0A00_0000, 8, 0x0A00_0001)
  {
    assert Pow2(8) == 256 && Pow2(16) == 65536;
    assert Pow2(24) == 0x100_0000;
    ShrBlock(0x0A00_0000, 24, 10);
    ShrBlock(0x0A00_0001, 24, 10);
  }

  // ----- The network mask -----

  // `a & b`, bit by bit.
  function And(a: nat, b: nat): nat {
    if a == 0 || b == 0 then 0 else (a % 2) * (b % 2) + 2 * And(a / 2, b / 2)
  }

  lemma {:induction false} AndOnes(a: nat, n: nat)
    requires a < Pow2(n)
    ensures And(a, Pow2(n) - 1) == a
  {
    if n > 0 && a > 0 {
      AndOnes(a / 2, n - 1);
      assert (Pow2(n) - 1) / 2 == Pow2(n - 1) - 1 && (Pow2(n) - 1) % 2 == 1;
    }
  }

  lemma {:induction false} ShrTail(a: nat, s: nat)
    requires s > 0
    ensures Shr(a, s) == Shr(a / 2, s - 1)
  {
    if s > 1 {
      ShrTail(a, s - 1);
    }
  }

  // A mask of ones above s zeros clears the low s bits.
  lemma {:induction false} AndMask(a: nat, n: nat, s: nat)
    requires a < Pow2(n) && s <= n && Pow2(s) <= Pow2(n)
    ensures And(a, Pow2(n) - Pow2(s)) == Shr(a, s) * Pow2(s)
  {
    if s == 0 {
      AndOnes(a, n);
    } else {
      AndMask(a / 2, n - 1, s - 1);
      ShrTail(a, s);
      AndEven(a, Pow2(n - 1) - Pow2(s - 1));
      Twice(Shr(a, s), Pow2(s - 1));
    }
  }

  lemma AndEven(a: nat, m: nat)
    ensures And(a, 2 * m) == 2 * And(a / 2, m)
  {
  }

  // `0xFFFFFFFF << s` in 32 bits.
  function NetMask(s: nat): nat {
    (KEYS - 1) * Pow2(s) % KEYS
  }

  lemma {:induction false} PowGrows(s: nat, n: nat)
    requires s <= n
    ensures 1 <= Pow2(s) <= Pow2(n)
  {
    if s < n {
      PowGrows(s, n - 1);
    } else if n > 0 {
      PowGrows(s - 1, n - 1);
    }
  }

  lemma NetMaskIs(s: nat)
    requires s <= BITS
    ensures NetMask(s) == KEYS - Pow2(s)
  {
    KeysArePowers();
    PowGrows(s, BITS);
    var p := Pow2(s);
    assert (KEYS - 1) * p == KEYS * (p - 1) + (KEYS - p);
    if p == KEYS {
      assert (KEYS - 1) * p % KEYS == 0;
    }
  }

  /** The base that the source computes with a 32-bit mask is the first address of the block. */
  lemma BaseOfBlock(ip: nat, s: nat)
    requires ip < KEYS && s <= BITS
    ensures And(ip, NetMask(s)) == Shr(ip, s) * Pow2(s)
  {
    NetMaskIs(s);
    KeysArePowers();
    PowGrows(s, BITS);
    AndMask(ip, BITS, s);
  }

  class AddressFilter {
    const trie: Trie<bool>
    const bloom: Bloom
    ghost var blocked: set<nat>

    ghost predicate Valid()
      reads this, trie, trie.repr, bloom, bloom.bits
    {
      && trie.Valid() && bloom.Valid()
      && trie.contents.Keys == blocked
      && forall ip :: ip in blocked ==> MemoryOf(ip) in bloom.added
    }

    constructor (bloomSize: nat)
      ensures Valid() && blocked == {} && bloom.bits.Length == bloomSize
    {
      trie := new Trie<bool>();
      bloom := new Bloom(bloomSize);
      blocked := {};
    }

    method AddIp(ip: nat)
      requires Valid() && bloom.bits.Length > 0 && ip < KEYS
      modifies this, trie, trie.repr, bloom, bloom.bits
      ensures Valid() && blocked == old(blocked) + {ip}
      ensures fresh(trie.repr - old(trie.repr))
    {
      trie.Insert(ip, true);
      bloom.Add(MemoryOf(ip));
      blocked := blocked + {ip};
    }

    // The expansion loop; the sum is taken in 32 bits.
    method AddRun(baseIp: nat, numIps: nat)
      requires Valid() && bloom.bits.Length > 0 && baseIp + numIps <= KEYS
      modifies this, trie, trie.repr, bloom, bloom.bits
      ensures Valid() && fresh(trie.repr - old(trie.repr))
      ensures forall x :: x in blocked <==> x in old(blocked) || baseIp <= x < baseIp + numIps
    {
      for i := 0 to numIps
        invariant Valid() && fresh(trie.repr - old(trie.repr))
        invariant forall x :: x in blocked <==> x in old(blocked) || baseIp <= x < baseIp + i
      {
        var ip := (baseIp + i) % KEYS;
        assert ip == baseIp + i;
        AddIp(ip);
      }
    }

    method AddCidr(ip: nat, mask: int)
      requires Valid() && bloom.bits.Length > 0 && ip < KEYS
      modifies this, trie, trie.repr, bloom, bloom.bits
      ensures Valid() && fresh(trie.repr - old(trie.repr))
      ensures forall x :: x in blocked <==> x in old(blocked) || Covers(ip, mask, x)
      ensures 24 <= mask <= 32 ==> forall x: nat :: x < KEYS && SamePrefix(x, ip, mask) ==> x in blocked
      ensures mask <= 0 || mask > 32 ==> blocked == old(blocked)
      ensures 0 < mask < 24 ==> blocked == old(blocked) + {ip}
    {
      if mask <= 0 || mask > 32 {
        return;
      }
      if mask >= 24 {
        BlockIsRun(ip, mask);
        BaseOfBlock(ip, 32 - mask);
        var numIps := Pow2(32 - mask);
        var baseIp := And(ip, NetMask(32 - mask));
        AddRun(baseIp, numIps);
      } else {
        AddIp(ip);
      }
    }

    method IsBlocked(ip: nat) returns (r: bool)
      requires Valid() && bloom.bits.Length > 0 && ip < KEYS
      ensures r <==> ip in blocked
    {
      var maybe := bloom.Contains(MemoryOf(ip));
      if !maybe {
        return false;
      }
      var found := trie.Search(ip);
      return found.Some?;
    }

    method AddEntry(e: Entry)
      requires Valid() && bloom.bits.Length > 0 && e.ip < KEYS
      modifies this, trie, trie.repr, bloom, bloom.bits
      ensures Valid() && fresh(trie.repr - old(trie.repr))
      ensures forall x :: x in blocked <==> x in old(blocked) || Blocks(e, x)
    {
      match e
      case Address(ip) => AddIp(ip);
      case Prefix(ip, mask) => AddCidr(ip, mask);
    }

    // Any sequence of additions: exactly what some entry covers is blocked.
    method Load(entries: seq<Entry>)
      requires Valid() && bloom.bits.Length > 0 && forall i :: 0 <= i < |entries| ==> entries[i].ip < KEYS
      modifies this, trie, trie.repr, bloom, bloom.bits
      ensures Valid() && fresh(trie.repr - old(trie.repr))
      ensures forall x :: x in blocked <==>
                x in old(blocked) || exists i :: 0 <= i < |entries| && Blocks(entries[i], x)
    {
      for n := 0 to |entries|
        invariant Valid() && fresh(trie.repr - old(trie.repr))
        invariant forall x :: x in blocked <==> x in old(blocked) || exists i :: 0 <= i < n && Blocks(entries[i], x)
      {
        AddEntry(entries[n]);
      }
    }
  }
}
