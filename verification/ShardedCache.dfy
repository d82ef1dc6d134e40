/** A cache split into shards by the high bits of the hash. */
module ShardedCaches {
  import opened LruHandles
  import opened LruShard

  const HASH_BITS := 32

  function Pow2(n: nat): (r: nat)
    ensures r > 0
  {
    if n == 0 then 1 else 2 * Pow2(n - 1)
  }

  function ShiftRight(x: nat, n: nat): nat
  {
    if n == 0 then x else ShiftRight(x / 2, n - 1)
  }

  /** Hashes are unsigned numbers of 32 bits. */
  predicate IsHash(hash: nat)
  {
    hash < Pow2(HASH_BITS)
  }

  /** The shard of a hash: its highest `bits` bits. */
  function Shard(hash: nat, bits: nat): nat
    requires bits <= HASH_BITS
  {
    if bits > 0 then ShiftRight(hash, HASH_BITS - bits) else 0
  }

  lemma {:induction false} Shifted(x: nat, n: nat, k: nat)
    requires x < Pow2(n + k)
    ensures ShiftRight(x, n) < Pow2(k)
  {
    if n > 0 {
      Shifted(x / 2, n - 1, k);
    }
  }

  lemma ShardInRange(hash: nat, bits: nat)
    requires IsHash(hash) && bits <= HASH_BITS
    ensures Shard(hash, bits) < Pow2(bits)
  {
    hide Pow2, ShiftRight;
    Shifted(hash, HASH_BITS - bits, bits);
  }

  lemma Ceiling(x: nat, n: nat)
    requires n > 0
    ensures x - (n - 1) <= n * (x / n) <= x
  {
  }

  function PerShard(capacity: nat, n: nat): (p: nat)
    requires n > 0
    ensures capacity <= n * p <= capacity + n - 1
  {
    Ceiling(capacity + (n - 1), n);
    (capacity + (n - 1)) / n
  }

  // ----- shards side by side

  ghost function Footprint(s: LRUCacheShard): set<object>
    reads s, s.table
  {
    {s, s.table, s.table.list, s.lru} + s.live
  }

  ghost function Tables(shards: seq<LRUCacheShard>): set<object>
  {
    set i | 0 <= i < |shards| :: shards[i].table
  }

  /** What the invariants of the shards look at besides the shards and their tables. */
  ghost function Reach(shards: seq<LRUCacheShard>): (r: set<object>)
    reads shards, Tables(shards)
    ensures forall i :: 0 <= i < |shards| ==>
              && shards[i].table.list in r && shards[i].lru in r && (forall h :: h in shards[i].live ==> h in r)
              && (forall h :: h in shards[i].order ==> h in r) && forall h :: h in shards[i].Cached() ==> h in r
  {
    if shards == [] then {}
    else
      var n := |shards| - 1;
      assert forall i :: 0 <= i < n ==> shards[..n][i] == shards[i];
      Reach(shards[..n]) + {shards[n].table.list, shards[n].lru} + shards[n].live + shards[n].Cached()
      + set h | h in shards[n].order
  }

  /** No two shards share anything. */
  ghost predicate Apart(shards: seq<LRUCacheShard>)
    reads shards, Tables(shards)
  {
    forall i, j :: 0 <= i < j < |shards| ==> Footprint(shards[i]) !! Footprint(shards[j])
  }

  /** What a shard was told; `fixed` if it was strict from the start and nothing has been changed since. */
  datatype Setting = Setting(capacity: nat, strict: bool, fixed: bool)

  ghost function SettingOf(s: LRUCacheShard): Setting
    reads s
  {
    Setting(s.capacity, s.strictCapacityLimit, s.fixed)
  }

  /** All keys of a shard's table have the shard's number. */
  ghost predicate AtHome(s: LRUCacheShard, number: nat, bits: nat)
    requires bits <= HASH_BITS
    reads s.table
  {
    forall id :: id in s.table.entries ==> IsHash(id.hash) && Shard(id.hash, bits) == number
  }

  ghost predicate ShardsOk(shards: seq<LRUCacheShard>, bits: nat)
    reads shards, Tables(shards), Reach(shards)
  {
    && bits <= HASH_BITS && |shards| == Pow2(bits) && Apart(shards)
    && forall i :: 0 <= i < |shards| ==> shards[i].Valid() && AtHome(shards[i], i, bits)
  }

  /** A shard reaches nothing but its own, which no other shard has. */
  lemma Separate(shards: seq<LRUCacheShard>, s: nat)
    requires s < |shards| && Apart(shards) && forall i :: 0 <= i < |shards| ==> shards[i].Valid()
    ensures forall i :: 0 <= i < |shards| ==>
              shards[i].Cached() <= shards[i].live && forall h :: h in shards[i].order ==> h in shards[i].live
    ensures forall i :: 0 <= i < |shards| && i != s ==> Footprint(shards[i]) !! Footprint(shards[s])
  {
    hide LRUCacheShard.Valid;
    forall i | 0 <= i < |shards|
      ensures shards[i].Cached() <= shards[i].live && forall h :: h in shards[i].order ==> h in shards[i].live
    {
      shards[i].WithinLive();
    }
  }

  function SumUsage(shards: seq<LRUCacheShard>): nat
    reads shards
  {
    if shards == [] then 0 else SumUsage(shards[..|shards| - 1]) + shards[|shards| - 1].usage
  }

  lemma {:induction false} SumBound(shards: seq<LRUCacheShard>, p: nat)
    requires forall i :: 0 <= i < |shards| ==> shards[i].usage <= p
    ensures SumUsage(shards) <= |shards| * p
  {
    if shards != [] {
      SumBound(shards[..|shards| - 1], p);
    }
  }

  lemma ConsistentIfValid(s: LRUCacheShard)
    requires s.Valid()
    ensures s.Consistent()
  {
  }

  class ShardedCache {
    const numShardBits: nat
    const shards: seq<LRUCacheShard>
    var capacity: nat
    var strictCapacityLimit: bool
    ghost var fixed: bool         // strict from the start, and nothing changed since

    /** The shards are valid, share nothing, hold the keys of their number and have their part of the capacity. */
    ghost predicate Valid()
      reads this, shards, Tables(shards), Reach(shards)
    {
      && ShardsOk(shards, numShardBits)
      && forall i :: 0 <= i < |shards| ==>
           SettingOf(shards[i]) == Setting(PerShard(capacity, |shards|), strictCapacityLimit, fixed)
    }

    /** The shard of a hash. */
    function Home(hash: nat): (s: LRUCacheShard)
      requires IsHash(hash) && numShardBits <= HASH_BITS && |shards| == Pow2(numShardBits)
      ensures Shard(hash, numShardBits) < |shards| && s == shards[Shard(hash, numShardBits)]
    {
      ShardInRange(hash, numShardBits);
      shards[Shard(hash, numShardBits)]
    }

    static method MakeShards(n: nat, perShard: nat, strictCapacityLimit: bool, highPriPoolRatio: real)
      returns (shards: seq<LRUCacheShard>)
      ensures |shards| == n && Apart(shards)
      ensures forall i :: 0 <= i < |shards| ==>
                && shards[i].Valid() && shards[i].usage == 0 && shards[i].table.entries == map[]
                && SettingOf(shards[i]) == Setting(perShard, strictCapacityLimit, strictCapacityLimit)
                && fresh(Footprint(shards[i]))
    {
      hide LRUCacheShard.Valid;
      shards := [];
      for s := 0 to n
        invariant |shards| == s && Apart(shards)
        invariant forall i :: 0 <= i < |shards| ==> shards[i].Valid() && fresh(Footprint(shards[i]))
        invariant forall i :: 0 <= i < |shards| ==>
                    && shards[i].usage == 0 && shards[i].live == {} && shards[i].table.entries == map[]
                    && SettingOf(shards[i]) == Setting(perShard, strictCapacityLimit, strictCapacityLimit)
      {
        forall i | 0 <= i < |shards| {
          shards[i].WithinLive();
        }
        label L:
        var shard := new LRUCacheShard(perShard, strictCapacityLimit, highPriPoolRatio);
        forall i | 0 <= i < |shards| ensures shards[i].Valid() {
          assert old@L(shards[i].Valid());
        }
        shards := shards + [shard];
      }
    }

    constructor (capacity: nat, numShardBits: nat, strictCapacityLimit: bool, highPriPoolRatio: real)
      requires numShardBits <= HASH_BITS
      ensures this.numShardBits == numShardBits && this.capacity == capacity
      ensures Valid() && fixed == strictCapacityLimit && this.strictCapacityLimit == strictCapacityLimit
      ensures forall i :: 0 <= i < |shards| ==> shards[i].usage == 0 && shards[i].table.entries == map[]
    {
      hide LRUCacheShard.Valid, Pow2, PerShard;
      var n := Pow2(numShardBits);
      var made := MakeShards(n, PerShard(capacity, n), strictCapacityLimit, highPriPoolRatio);
      forall i | 0 <= i < |made| {
        made[i].WithinLive();
      }
      label L:
      this.numShardBits, this.shards, this.capacity := numShardBits, made, capacity;
      this.strictCapacityLimit, fixed := strictCapacityLimit, strictCapacityLimit;
      new;
      forall i | 0 <= i < |shards| ensures shards[i].Valid() {
        assert old@L(made[i].Valid());
      }
    }

    // ----- all shards, one after the other

    static method SetOne(shard: LRUCacheShard, perShard: nat)
      requires shard.Valid()
      modifies Footprint(shard)
      ensures shard.Valid() && shard.table.entries.Keys <= old(shard.table.entries.Keys)
      ensures SettingOf(shard) == Setting(perShard, old(shard.strictCapacityLimit), false)
      ensures Footprint(shard) <= old(Footprint(shard))
    {
      hide LRUCacheShard.Valid;
      ConsistentIfValid(shard);
      shard.SetCapacity(perShard);
    }

    method SetShard(s: nat, perShard: nat)
      requires s < |shards| && ShardsOk(shards, numShardBits)
      modifies Footprint(shards[s])
      ensures ShardsOk(shards, numShardBits)
      ensures unchanged(this) && SettingOf(shards[s]) == Setting(perShard, old(shards[s].strictCapacityLimit), false)
      ensures forall i :: 0 <= i < |shards| ==> Footprint(shards[i]) <= old(Footprint(shards[i]))
      ensures forall i :: 0 <= i < |shards| && i != s ==> SettingOf(shards[i]) == old(SettingOf(shards[i]))
    {
      hide LRUCacheShard.Valid, Shard, Pow2, IsHash;
      Separate(shards, s);
      SetOne(shards[s], perShard);
      forall i | 0 <= i < |shards| && i != s
        ensures shards[i].Valid() && Footprint(shards[i]) == old(Footprint(shards[i]))
        ensures Footprint(shards[i]) !! Footprint(shards[s])
      {
        assert old(shards[i].Valid());
        assert old(Footprint(shards[i]) !! Footprint(shards[s]));
      }
    }

    /** What the cache itself remembers, once every shard has been told. */
    method SetTotal(capacity: nat, strict: bool)
      requires ShardsOk(shards, numShardBits)
      requires forall i :: 0 <= i < |shards| ==>
                 SettingOf(shards[i]) == Setting(PerShard(capacity, |shards|), strict, false)
      modifies this
      ensures Valid() && this.capacity == capacity && strictCapacityLimit == strict && !fixed
    {
      hide LRUCacheShard.Valid, Shard, Pow2, IsHash, PerShard;
      forall i | 0 <= i < |shards| {
        shards[i].WithinLive();
      }
      this.capacity, strictCapacityLimit, fixed := capacity, strict, false;
      forall i | 0 <= i < |shards| ensures shards[i].Valid() {
        assert old(shards[i].Valid());
        assert forall o :: o in Footprint(shards[i]) ==> o != this;
      }
    }

    method SetCapacity(capacity: nat)
      requires Valid()
      modifies this, set i, o | 0 <= i < |shards| && o in Footprint(shards[i]) :: o
      ensures Valid() && this.capacity == capacity && strictCapacityLimit == old(strictCapacityLimit) && !fixed
    {
      hide LRUCacheShard.Valid, Footprint, Pow2, PerShard;
      var perShard := PerShard(capacity, |shards|);
      for s := 0 to |shards|
        invariant ShardsOk(shards, numShardBits)
        invariant forall i :: 0 <= i < |shards| ==> Footprint(shards[i]) <= old(Footprint(shards[i]))
        invariant forall i :: 0 <= i < |shards| ==> shards[i].strictCapacityLimit == strictCapacityLimit
        invariant forall i :: 0 <= i < s ==> shards[i].capacity == perShard && !shards[i].fixed
        invariant unchanged(this)
      {
        SetShard(s, perShard);
      }
      SetTotal(capacity, strictCapacityLimit);
    }

    method SetStrict(s: nat, strict: bool)
      requires s < |shards| && ShardsOk(shards, numShardBits)
      modifies Footprint(shards[s])
      ensures ShardsOk(shards, numShardBits)
      ensures unchanged(this) && SettingOf(shards[s]) == Setting(old(shards[s].capacity), strict, false)
      ensures forall i :: 0 <= i < |shards| ==> Footprint(shards[i]) == old(Footprint(shards[i]))
      ensures forall i :: 0 <= i < |shards| && i != s ==> SettingOf(shards[i]) == old(SettingOf(shards[i]))
    {
      hide LRUCacheShard.Valid, Shard, Pow2, IsHash;
      Separate(shards, s);
      shards[s].SetStrictCapacityLimit(strict);
      forall i | 0 <= i < |shards| && i != s
        ensures shards[i].Valid() && Footprint(shards[i]) == old(Footprint(shards[i]))
        ensures Footprint(shards[i]) !! Footprint(shards[s])
      {
        assert old(shards[i].Valid());
        assert old(Footprint(shards[i]) !! Footprint(shards[s]));
      }
    }

    method SetStrictCapacityLimit(strict: bool)
      requires Valid()
      modifies this, set i, o | 0 <= i < |shards| && o in Footprint(shards[i]) :: o
      ensures Valid() && strictCapacityLimit == strict && capacity == old(capacity) && !fixed
    {
      hide LRUCacheShard.Valid, Footprint, Pow2, PerShard;
      for s := 0 to |shards|
        invariant ShardsOk(shards, numShardBits)
        invariant forall i :: 0 <= i < |shards| ==> Footprint(shards[i]) == old(Footprint(shards[i]))
        invariant forall i :: 0 <= i < |shards| ==> shards[i].capacity == PerShard(capacity, |shards|)
        invariant forall i :: 0 <= i < s ==> shards[i].strictCapacityLimit == strict && !shards[i].fixed
        invariant unchanged(this)
      {
        SetStrict(s, strict);
      }
      SetTotal(capacity, strict);
    }

    /** Under a limit that was strict from the start, rounding up costs less than one unit a shard. */
    method GetUsage() returns (total: nat)
      requires Valid()
      ensures total == SumUsage(shards)
      ensures fixed ==> total <= capacity + |shards| - 1
      ensures (forall i :: 0 <= i < |shards| ==> shards[i].usage <= PerShard(capacity, |shards|)) ==>
                total <= capacity + |shards| - 1
    {
      hide Pow2, Apart, AtHome, LRUCacheShard.Consistent;
      total := 0;
      for s := 0 to |shards|
        invariant total == SumUsage(shards[..s])
      {
        assert shards[..s + 1][..s] == shards[..s];
        total := total + shards[s].usage;
      }
      assert shards[..|shards|] == shards;
      if forall i :: 0 <= i < |shards| ==> shards[i].usage <= PerShard(capacity, |shards|) {
        SumBound(shards, PerShard(capacity, |shards|));
      }
    }

    method EraseShard(s: nat)
      requires s < |shards| && Valid()
      modifies Footprint(shards[s])
      ensures Valid() && shards[s].order == [] && unchanged(this)
      ensures forall i :: 0 <= i < |shards| ==> Footprint(shards[i]) <= old(Footprint(shards[i]))
      ensures forall i :: 0 <= i < |shards| && i != s ==> shards[i].order == old(shards[i].order)
    {
      hide LRUCacheShard.Valid, Shard, Pow2, IsHash, PerShard;
      Separate(shards, s);
      shards[s].EraseUnRefEntries();
      forall i | 0 <= i < |shards| && i != s
        ensures shards[i].Valid() && Footprint(shards[i]) == old(Footprint(shards[i]))
        ensures Footprint(shards[i]) !! Footprint(shards[s])
      {
        assert old(shards[i].Valid());
        assert old(Footprint(shards[i]) !! Footprint(shards[s]));
      }
    }

    /** Evicts everything that no client holds. */
    method EraseUnRefEntries()
      requires Valid()
      modifies set i, o | 0 <= i < |shards| && o in Footprint(shards[i]) :: o
      ensures Valid() && forall i :: 0 <= i < |shards| ==> shards[i].order == []
    {
      hide LRUCacheShard.Valid, Footprint, Pow2, PerShard;
      for s := 0 to |shards|
        invariant Valid() && unchanged(this)
        invariant forall i :: 0 <= i < |shards| ==> Footprint(shards[i]) <= old(Footprint(shards[i]))
        invariant forall i :: 0 <= i < s ==> shards[i].order == []
      {
        EraseShard(s);
      }
    }

    // ----- one shard

    static method InsertOne(shard: LRUCacheShard, id: Id, charge: nat, isHighPri: bool, hold: bool)
      returns (ok: bool, handle: LRUHandle?, ghost e: LRUHandle, ghost inserted: bool)
      requires shard.Valid()
      modifies Footprint(shard)
      ensures shard.Valid() && SettingOf(shard) == old(SettingOf(shard))
      ensures shard.table.entries.Keys <= old(shard.table.entries.Keys) + {id}
      ensures forall o :: o in Footprint(shard) && o !in old(Footprint(shard)) ==> fresh(o)
      ensures fresh(e) && e.id == id && e.charge == charge
      ensures inserted <==> old(shard.usage) - old(shard.lruUsage) + charge <= shard.capacity
                            || (!shard.strictCapacityLimit && hold)
      ensures (ok <==> inserted || !hold) && handle == if inserted && hold then e else null
      ensures inserted ==> id in shard.table.entries && shard.table.entries[id] == e
      ensures handle != null ==> handle in shard.clients
      ensures shard.live + shard.freed == old(shard.live) + old(shard.freed) + if ok then {e} else {}
    {
      hide LRUCacheShard.Valid;
      ok, handle, e, inserted := shard.Insert(id, charge, isHighPri, hold);
    }

    /** What the shard of the key does with it; no other shard is touched. */
    method Insert(id: Id, charge: nat, isHighPri: bool, hold: bool)
      returns (ok: bool, handle: LRUHandle?, ghost e: LRUHandle, ghost inserted: bool)
      requires Valid() && IsHash(id.hash)
      modifies Footprint(Home(id.hash))
      ensures Valid() && fresh(e) && e.id == id && e.charge == charge
      ensures inserted <==> old(Home(id.hash).usage) - old(Home(id.hash).lruUsage) + charge <= Home(id.hash).capacity
                            || (!strictCapacityLimit && hold)
      ensures (ok <==> inserted || !hold) && handle == if inserted && hold then e else null
      ensures inserted ==> id in Home(id.hash).table.entries && Home(id.hash).table.entries[id] == e
      ensures handle != null ==> handle in Home(id.hash).clients
      ensures Home(id.hash).live + Home(id.hash).freed ==
              old(Home(id.hash).live) + old(Home(id.hash).freed) + if ok then {e} else {}
    {
      hide LRUCacheShard.Valid, Shard, Pow2, IsHash, PerShard;
      ghost var s := Shard(id.hash, numShardBits);
      var shard := Home(id.hash);
      Separate(shards, s);
      ok, handle, e, inserted := InsertOne(shard, id, charge, isHighPri, hold);
      forall i | 0 <= i < |shards| && i != s
        ensures shards[i].Valid() && Footprint(shards[i]) == old(Footprint(shards[i]))
        ensures Footprint(shards[i]) !! Footprint(shards[s])
      {
        assert old(shards[i].Valid());
        assert old(Footprint(shards[i]) !! Footprint(shards[s]));
      }
    }

    method Lookup(id: Id) returns (e: LRUHandle?)
      requires Valid() && IsHash(id.hash)
      modifies Footprint(Home(id.hash))
      ensures Valid()
      // found exactly if any shard has the key
      ensures e != null <==> exists i :: 0 <= i < |shards| && id in shards[i].table.entries
      ensures e != null ==> e == Home(id.hash).table.entries[id] && e.hasHit && e in Home(id.hash).clients
    {
      hide LRUCacheShard.Valid, Shard, Pow2, IsHash, PerShard;
      ghost var s := Shard(id.hash, numShardBits);
      var shard := Home(id.hash);
      Separate(shards, s);
      e := shard.Lookup(id);
      forall i | 0 <= i < |shards| && i != s
        ensures shards[i].Valid() && Footprint(shards[i]) == old(Footprint(shards[i]))
        ensures Footprint(shards[i]) !! Footprint(shards[s])
      {
        assert old(shards[i].Valid());
        assert old(Footprint(shards[i]) !! Footprint(shards[s]));
      }
    }

    method Ref(e: LRUHandle)
      requires Valid() && IsHash(e.id.hash) && e in Home(e.id.hash).live
      modifies Footprint(Home(e.id.hash))
      ensures Valid() && Home(e.id.hash).clients == old(Home(e.id.hash).clients) + multiset{e}
    {
      hide LRUCacheShard.Valid, Shard, Pow2, IsHash, PerShard;
      ghost var s := Shard(e.id.hash, numShardBits);
      var shard := Home(e.id.hash);
      Separate(shards, s);
      shard.Ref(e);
      forall i | 0 <= i < |shards| && i != s
        ensures shards[i].Valid() && Footprint(shards[i]) == old(Footprint(shards[i]))
        ensures Footprint(shards[i]) !! Footprint(shards[s])
      {
        assert old(shards[i].Valid());
        assert old(Footprint(shards[i]) !! Footprint(shards[s]));
      }
    }

    method Release(e: LRUHandle, forceErase: bool) returns (last: bool)
      requires Valid() && IsHash(e.id.hash) && e in Home(e.id.hash).clients
      modifies Footprint(Home(e.id.hash))
      ensures Valid() && Home(e.id.hash).clients == old(Home(e.id.hash).clients) - multiset{e}
      ensures last <==> e in Home(e.id.hash).freed && e !in old(Home(e.id.hash).freed)
    {
      hide LRUCacheShard.Valid, Shard, Pow2, IsHash, PerShard;
      ghost var s := Shard(e.id.hash, numShardBits);
      var shard := Home(e.id.hash);
      Separate(shards, s);
      shard.HeldNotFreed(e);
      last := shard.Release(e, forceErase);
      forall i | 0 <= i < |shards| && i != s
        ensures shards[i].Valid() && Footprint(shards[i]) == old(Footprint(shards[i]))
        ensures Footprint(shards[i]) !! Footprint(shards[s])
      {
        assert old(shards[i].Valid());
        assert old(Footprint(shards[i]) !! Footprint(shards[s]));
      }
    }

    static method EraseOne(shard: LRUCacheShard, id: Id)
      requires shard.Valid()
      modifies Footprint(shard)
      ensures shard.Valid() && SettingOf(shard) == old(SettingOf(shard))
      ensures shard.table.entries == old(shard.table.entries) - {id} && Footprint(shard) <= old(Footprint(shard))
    {
      hide LRUCacheShard.Valid;
      shard.Erase(id);
    }

    method Erase(id: Id)
      requires Valid() && IsHash(id.hash)
      modifies Footprint(Home(id.hash))
      ensures Valid() && forall i :: 0 <= i < |shards| ==> id !in shards[i].table.entries
    {
      hide LRUCacheShard.Valid, Shard, Pow2, IsHash, PerShard;
      ghost var s := Shard(id.hash, numShardBits);
      var shard := Home(id.hash);
      Separate(shards, s);
      EraseOne(shard, id);
      forall i | 0 <= i < |shards| && i != s
        ensures shards[i].Valid() && Footprint(shards[i]) == old(Footprint(shards[i]))
        ensures Footprint(shards[i]) !! Footprint(shards[s])
      {
        assert old(shards[i].Valid());
        assert old(Footprint(shards[i]) !! Footprint(shards[s]));
      }
    }
  }
}
