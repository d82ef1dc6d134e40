/** One shard of the LRU cache. */
module LruShard {
  import opened LruHandles
  import opened LruTable
  import opened LruList

  /** An entry counts its clients and the table, and knows whether it is in the table. */
  ghost predicate Counted(h: LRUHandle, cached: set<LRUHandle>, clients: multiset<LRUHandle>)
    reads h`refs, h`inCache
  {
    h.refs == clients[h] + (if h in cached then 1 else 0) && (h.inCache <==> h in cached)
  }

  /** The list holds exactly the table's entries without clients; others are in no list. */
  ghost predicate Listed(h: LRUHandle, cached: set<LRUHandle>, clients: multiset<LRUHandle>, order: seq<LRUHandle>)
    reads h`next, h`prev
  {
    (h in order <==> h in cached && clients[h] == 0) && (h !in order ==> h.next == null && h.prev == null)
  }

  /** All of this for every live entry but those in `x`; live are the entries in the table or held. */
  ghost predicate Entries(live: set<LRUHandle>, cached: set<LRUHandle>, clients: multiset<LRUHandle>,
                          order: seq<LRUHandle>, x: set<LRUHandle>)
    reads live`refs, live`inCache, live`next, live`prev
  {
    && (forall h :: h in order ==> h in live) && cached <= live && (forall h :: h in clients ==> h in live)
    && (forall h :: h in live && h !in x ==>
          (h in cached || h in clients) && Counted(h, cached, clients) && Listed(h, cached, clients, order))
  }

  function PoolCapacity(capacity: nat, ratio: real): (r: real)
    ensures r >= 0.0 <==> ratio >= 0.0 || capacity == 0
  {
    capacity as real * ratio
  }

  function Only(h: LRUHandle?): set<LRUHandle>
  {
    if h == null then {} else {h}
  }

  function ChargeOf(h: LRUHandle?): nat
  {
    if h == null then 0 else h.charge
  }

  predicate PutAt(before: seq<LRUHandle>, k: nat, e: LRUHandle, after: seq<LRUHandle>)
  {
    k <= |before| && after == With(before, k, e)
  }

  ghost predicate Retired(deleted: seq<LRUHandle>)
    reads deleted`refs, deleted`inCache
  {
    forall e :: e in deleted ==> e.refs == 0 && !e.inCache
  }

  /** Exactly the entries of `deleted`, all different, left the shard. */
  ghost predicate Gone(deleted: seq<LRUHandle>, live: set<LRUHandle>, live': set<LRUHandle>,
                       entries: map<Id, LRUHandle>, entries': map<Id, LRUHandle>)
  {
    && Distinct(deleted) && (forall e :: e in deleted ==> e in live && e.id in entries && entries[e.id] == e)
    && live' == live - (set e | e in deleted) && entries' == entries - (set e | e in deleted :: e.id)
  }

  lemma GoneOneMore(deleted: seq<LRUHandle>, e: LRUHandle, live: set<LRUHandle>, live0: set<LRUHandle>,
                    entries: map<Id, LRUHandle>, entries0: map<Id, LRUHandle>)
    requires Gone(deleted, live, live0, entries, entries0) && e in live0 && e.id in entries0 && entries0[e.id] == e
    ensures Gone(deleted + [e], live, live0 - {e}, entries, entries0 - {e.id})
  {
    assert (set x | x in deleted + [e]) == (set x | x in deleted) + {e};
    assert (set x | x in deleted + [e] :: x.id) == (set x | x in deleted :: x.id) + {e.id};
  }

  lemma NothingGone(live: set<LRUHandle>, entries: map<Id, LRUHandle>)
    ensures Gone([], live, live, entries, entries)
  {
  }

  lemma GoneLive(deleted: seq<LRUHandle>, live: set<LRUHandle>, live': set<LRUHandle>,
                 entries: map<Id, LRUHandle>, entries': map<Id, LRUHandle>)
    requires Gone(deleted, live, live', entries, entries')
    ensures live' <= live && forall x :: x in deleted ==> x in live && x !in live'
  {
  }

  lemma GoneAll(deleted: seq<LRUHandle>, live: set<LRUHandle>, live': set<LRUHandle>,
                entries: map<Id, LRUHandle>, entries': map<Id, LRUHandle>)
    requires Gone(deleted, live, live', entries, entries')
    ensures Distinct(deleted) && live' + (set x | x in deleted) == live && live' <= live
    ensures entries' == entries - set x | x in deleted :: x.id
    ensures forall x :: x in deleted ==> x in live && x !in live'
  {
  }

  /** The shard gained `added`, if anything, and lost exactly `deleted`; an entry leaves the
      table only if it is deleted or replaced. */
  ghost predicate Inserted(added: set<LRUHandle>, deleted: seq<LRUHandle>, live: set<LRUHandle>, live': set<LRUHandle>,
                           entries: map<Id, LRUHandle>, entries': map<Id, LRUHandle>)
  {
    && Distinct(deleted) && (forall x :: x in deleted ==> x in live && x !in live')
    && live' + (set x | x in deleted) == live + added
    && (forall e :: e in added ==> e.id in entries' && entries'[e.id] == e)
    && (forall k :: k in entries' ==> entries'[k] in added || (k in entries && entries'[k] == entries[k]))
    && (forall k :: k in entries ==> k in entries' || entries[k] in deleted)
  }

  lemma DeletedSet(deleted: seq<LRUHandle>, out: LRUHandle?)
    ensures SetOf(deleted + (if out == null then [] else [out])) == SetOf(deleted) + Only(out)
  {
  }

  lemma NotPlaced(deleted: seq<LRUHandle>, live: set<LRUHandle>, live': set<LRUHandle>,
                  entries: map<Id, LRUHandle>, entries': map<Id, LRUHandle>)
    requires Gone(deleted, live, live', entries, entries')
    ensures Inserted({}, deleted, live, live', entries, entries')
  {
  }

  lemma PlacedAfter(e: LRUHandle, deleted: seq<LRUHandle>, out: LRUHandle?, live: set<LRUHandle>, live0: set<LRUHandle>,
                    entries: map<Id, LRUHandle>, entries0: map<Id, LRUHandle>)
    requires Gone(deleted, live, live0, entries, entries0) && e !in live
    requires out != null ==> out in live0
    ensures Inserted({e}, deleted + (if out == null then [] else [out]), live,
                     live0 + {e} - Only(out), entries, entries0[e.id := e])
  {
    var all := deleted + (if out == null then [] else [out]);
    assert (set x | x in all) == (set x | x in deleted) + (if out == null then {} else {out});
  }

  lemma NoCharge()
    ensures Charge([]) == 0
  {
  }

  lemma ChargeSnoc(deleted: seq<LRUHandle>, e: LRUHandle)
    ensures Charge(deleted + [e]) == Charge(deleted) + e.charge
  {
    ChargeOne(e);
    ChargeJoin(deleted, [e]);
  }

  lemma TableOnly(e: LRUHandle, cached: set<LRUHandle>, clients: multiset<LRUHandle>)
    requires e in cached && clients[e] == 0 && e.refs == 1 && e.inCache
    ensures Counted(e, cached, clients)
  {
  }

  lemma NewCounted(e: LRUHandle, cached: set<LRUHandle>, clients: multiset<LRUHandle>)
    requires e in cached && e !in clients && e.inCache
    ensures e.refs == 1 ==> Counted(e, cached, clients)
    ensures e.refs == 2 ==> Counted(e, cached, clients + multiset{e})
  {
  }

  lemma NewEntry(live: set<LRUHandle>, cached: set<LRUHandle>, clients: multiset<LRUHandle>, order: seq<LRUHandle>,
                 e: LRUHandle)
    requires Entries(live, cached, clients, order, {}) && e !in live
    ensures Entries(live + {e}, cached + {e}, clients, order, {e})
  {
  }

  ghost function Total(s: set<LRUHandle>): nat
  {
    if s == {} then 0 else var x :| x in s; x.charge + Total(s - {x})
  }

  lemma {:induction false} TotalRemove(s: set<LRUHandle>, x: LRUHandle)
    requires x in s
    ensures Total(s) == x.charge + Total(s - {x})
  {
    var y :| y in s && Total(s) == y.charge + Total(s - {y});
    if x != y {
      TotalRemove(s - {y}, x);
      assert s - {y} - {x} == s - {x} - {y};
      TotalRemove(s - {x}, y);
    }
  }

  lemma AddTotal(s: set<LRUHandle>, e: LRUHandle)
    requires e !in s
    ensures Total(s + {e}) == Total(s) + e.charge
  {
    hide Total;
    TotalRemove(s + {e}, e);
    assert s + {e} - {e} == s;
  }

  lemma SameCount(h: LRUHandle, a: set<LRUHandle>, b: set<LRUHandle>, clients: multiset<LRUHandle>)
    requires Counted(h, a, clients) && (h in a <==> h in b)
    ensures Counted(h, b, clients)
  {
  }

  lemma GivenOrder(order: seq<LRUHandle>, k: nat, e: LRUHandle)
    requires k <= |order|
    ensures forall h :: h in With(order, k, e) <==> h in order || h == e
  {
    forall h | h in order ensures h in With(order, k, e) {
      var i :| 0 <= i < |order| && order[i] == h;
      assert i < k ==> With(order, k, e)[i] == h;
      assert i >= k ==> With(order, k, e)[i + 1] == h;
    }
    assert With(order, k, e)[k] == e;
  }

  lemma TakenOrder(order: seq<LRUHandle>, k: nat)
    requires k < |order| && Distinct(order)
    ensures order[k] !in Without(order, k)
    ensures forall h :: h in order ==> h == order[k] || h in Without(order, k)
    ensures forall h :: h in Without(order, k) ==> h in order
  {
    forall h | h in order ensures h == order[k] || h in Without(order, k) {
      var i :| 0 <= i < |order| && order[i] == h;
      assert i < k ==> Without(order, k)[i] == h;
      assert i > k ==> Without(order, k)[i - 1] == h;
    }
  }

  lemma {:induction false} TotalAtLeast(order: seq<LRUHandle>, s: set<LRUHandle>)
    requires Distinct(order) && forall h :: h in order ==> h in s
    ensures Charge(order) <= Total(s)
  {
    if order != [] {
      var n := |order| - 1;
      TotalRemove(s, order[n]);
      TotalAtLeast(order[..n], s - {order[n]});
    }
  }

  class LRUCacheShard {
    const table: LRUHandleTable
    const lru: LRUHandle            // dummy head
    var lruLowPri: LRUHandle        // newest entry of the low-priority pool, or the dummy
    var capacity: nat
    var strictCapacityLimit: bool
    var highPriPoolRatio: real
    var highPriPoolCapacity: real
    var usage: nat
    var lruUsage: nat
    var highPriPoolUsage: nat

    ghost var order: seq<LRUHandle>       // the list, oldest first
    ghost var low: nat                    // size of the low-priority pool
    ghost var clients: multiset<LRUHandle>  // references held by clients
    ghost var live: set<LRUHandle>        // entries in the table or held by a client
    ghost var freed: set<LRUHandle>       // entries whose deleter ran
    ghost var fixed: bool                 // strict and of the same capacity since construction

    ghost predicate TotalsOk()
      reads this`usage, this`live, this`freed
    {
      usage == Total(live) && lru !in live && live !! freed
    }

    ghost predicate PoolOk()
      reads this`capacity, this`highPriPoolRatio, this`highPriPoolCapacity
    {
      highPriPoolCapacity == PoolCapacity(capacity, highPriPoolRatio)
    }

    ghost function Cached(): set<LRUHandle>
      reads table
    {
      table.entries.Values
    }

    ghost predicate EntriesBut(x: set<LRUHandle>)
      reads this`clients, this`live, this`order, table, live`refs, live`inCache, live`next, live`prev
    {
      Entries(live, Cached(), clients, order, x)
    }

    /** A low-priority segment ending at `lruLowPri`, then a high-priority one, with exact charges. */
    ghost predicate ListOk()
      reads this`lruLowPri, this`order, this`low, this`lruUsage, this`highPriPoolUsage
      reads lru`next, lru`prev, order`next, order`prev, order`inHighPriPool
    {
      && Ring(lru, order) && Proper(lru, order)
      && low <= |order| && lruLowPri == Circle(lru, order)[low]
      && lruUsage == Charge(order) && highPriPoolUsage == Charge(order[low..])
      && forall i :: 0 <= i < |order| ==> (order[i].inHighPriPool <==> i >= low)
    }

    ghost predicate ConsistentBut(x: set<LRUHandle>)
      reads this, table, table.list, lru, live, order, Cached()
    {
      table.Valid() && ListOk() && EntriesBut(x) && TotalsOk() && PoolOk()
    }

    ghost predicate Consistent()
      reads this, table, table.list, lru, live, order, Cached()
    {
      ConsistentBut({})
    }

    ghost predicate Bounded()
      reads this`fixed, this`strictCapacityLimit, this`usage, this`capacity
    {
      fixed ==> strictCapacityLimit && usage <= capacity
    }

    /** A shard over its capacity has nothing left to evict, and one whose limit has always been strict is not
        over its capacity. */
    ghost predicate Valid()
      reads this, table, table.list, lru, live, order, Cached()
    {
      Consistent() && (usage > capacity ==> order == []) && Bounded()
    }

    // ----- taking entries out

    /** From here on a strict limit holds for good. */
    ghost method Fix()
      requires Valid() && !fixed && usage <= capacity
      modifies this`fixed
      ensures Valid() && fixed == strictCapacityLimit
    {
      hide ListOk, PoolOk, TotalsOk, Entries, LRUHandleTable.Valid;
      fixed := strictCapacityLimit;
    }

    lemma EmptyShard()
      requires table.Valid() && table.entries == map[] && lru.next == lru && lru.prev == lru && lruLowPri == lru
      requires order == [] && low == 0 && usage == 0 && lruUsage == 0 && highPriPoolUsage == 0
      requires clients == multiset{} && live == {} && freed == {}
      requires capacity == 0 && highPriPoolCapacity == 0.0
      ensures Consistent()
    {
      hide LRUHandleTable.Valid;
    }

    lemma AllLive(x: set<LRUHandle>)
      requires EntriesBut(x)
      ensures Cached() <= live && forall h :: h in order ==> h in live
    {
    }

    method LRU_Remove(e: LRUHandle, ghost k: nat)
      requires ListOk() && k < |order| && order[k] == e
      modifies this`lruLowPri, this`lruUsage, this`highPriPoolUsage, this`order, this`low
      modifies lru`next, lru`prev, order`next, order`prev
      ensures ListOk() && order == Without(old(order), k) && low == if k < old(low) then old(low) - 1 else old(low)
      ensures e.next == null && e.prev == null
    {
      hide Charge, Circle, Ring, Proper;
      ChargeAt(order, k, low);
      Neighbours(lru, order, k);
      LowWithout(lru, order, k, low);
      if lruLowPri == e {
        lruLowPri := e.prev;
      }
      Unlink(e, lru, order, k);
      lruUsage := lruUsage - e.charge;
      if e.inHighPriPool {
        highPriPoolUsage := highPriPoolUsage - e.charge;
      }
      order, low := Without(order, k), if k < low then low - 1 else low;
    }

    lemma OnList(e: LRUHandle)
      requires Consistent() && e in order
      ensures Proper(lru, order) && lru !in live
      ensures e in live && e in Cached() && clients[e] == 0 && e.refs == 1 && e.inCache
    {
      assert Counted(e, Cached(), clients) && Listed(e, Cached(), clients, order);
    }

    /** Takes an entry off the list. */
    method Take(e: LRUHandle)
      requires Consistent() && e in order
      modifies this`lruLowPri, this`lruUsage, this`highPriPoolUsage, this`order, this`low
      modifies lru`next, lru`prev, order`next, order`prev
      ensures ConsistentBut({e}) && e in live && e in Cached() && clients[e] == 0 && e.refs == 1 && e.inCache
      ensures e !in order && e.next == null && e.prev == null
      ensures order == Drop(old(order), {e})
    {
      hide Counted, ListOk, PoolOk, TotalsOk, LRUHandleTable.Valid, Drop;
      ghost var k :| 0 <= k < |order| && order[k] == e;
      OnList(e);
      TakenOrder(order, k);
      DropWithout(order, k);
      LRU_Remove(e, k);
      forall h | h in live && h != e ensures Listed(h, Cached(), clients, order) {
        assert old(Listed(h, Cached(), clients, order));
      }
    }

    lemma CachedById(e: LRUHandle)
      requires table.Valid() && e in Cached()
      ensures e.id in table.entries && table.entries[e.id] == e
    {
      table.ValidById();
      var id :| id in table.entries && table.entries[id] == e;
    }

    method RemoveFromTable(id: Id) returns (e: LRUHandle?)
      requires table.Valid()
      modifies table, table.list, Cached()`nextHash
      ensures table.Valid() && table.entries == old(table.entries) - {id} && table.list == old(table.list)
      ensures e == if id in old(table.entries) then old(table.entries)[id] else null
      ensures e == null ==> Cached() == old(Cached())
      ensures e != null ==> e.id == id && e in old(Cached()) && Cached() == old(Cached()) - {e}
    {
      hide LRUHandleTable.Valid;
      table.ValidById();
      if id in table.entries {
        ValuesWithout(table.entries, id);
      } else {
        assert table.entries - {id} == table.entries;
      }
      e := table.Remove(id);
    }

    /** Accounts for an entry that nobody refers to any more. */
    method Bury(e: LRUHandle, ghost x: set<LRUHandle>)
      requires ConsistentBut(x + {e}) && e in live && e !in Cached() && e !in clients && e !in order
      modifies this`usage, this`live
      ensures ConsistentBut(x) && live == old(live) - {e} && usage == old(usage) - e.charge
    {
      hide Counted, Listed, ListOk, PoolOk, Total, LRUHandleTable.Valid;
      TotalRemove(live, e);
      usage := usage - e.charge;
      live := live - {e};
    }

    /** Drops the table's reference, the last one, of an entry just removed from the table. */
    method Retire(e: LRUHandle)
      requires table.Valid() && ListOk() && TotalsOk() && PoolOk()
      requires e in live && e !in Cached() && clients[e] == 0 && e !in order && e.refs == 1
      requires Entries(live, Cached() + {e}, clients, order, {e})
      modifies this`usage, this`live, e`inCache, e`refs
      ensures Consistent() && live == old(live) - {e} && usage == old(usage) - e.charge
      ensures e.refs == 0 && !e.inCache
    {
      hide ListOk, PoolOk, TotalsOk, LRUHandleTable.Valid;
      e.inCache := false;
      e.refs := e.refs - 1;
      assert {} + {e} == {e};
      Bury(e, {});
    }

    /** Removes from the table an entry that only the table refers to. */
    method Discard(e: LRUHandle)
      requires ConsistentBut({e}) && e in live && e in Cached() && clients[e] == 0 && e.refs == 1 && e !in order
      modifies this`usage, this`live, table, table.list, Cached()`nextHash, e`inCache, e`refs
      ensures Consistent() && table.entries == old(table.entries) - {e.id} && table.list == old(table.list)
      ensures live == old(live) - {e} && usage == old(usage) - e.charge
      ensures e.refs == 0 && !e.inCache
    {
      hide ListOk, PoolOk, TotalsOk, Entries, LRUHandleTable.Valid;
      ghost var cached := Cached();
      CachedById(e);
      var _ := RemoveFromTable(e.id);
      assert Cached() + {e} == cached;
      Retire(e);
    }

    lemma FirstOnList()
      requires ListOk() && order != []
      ensures lru.next == order[0] && Distinct(order)
    {
      Ends(lru, order);
      After(lru, order, 0);
    }

    method EvictOldest() returns (e: LRUHandle)
      requires Consistent() && order != []
      modifies this`lruLowPri, this`lruUsage, this`highPriPoolUsage, this`order, this`low, this`usage, this`live
      modifies lru`next, lru`prev, live`next, live`prev
      modifies table, table.list, live`nextHash, live`inCache, live`refs
      ensures Consistent() && e == old(order)[0] && order == old(order)[1..]
      ensures table.entries == old(table.entries) - {e.id} && table.list == old(table.list)
      ensures e.id in old(table.entries) && old(table.entries)[e.id] == e
      ensures e in old(live) && live == old(live) - {e} && usage == old(usage) - e.charge
      ensures e.refs == 0 && !e.inCache
    {
      hide ListOk, PoolOk, TotalsOk, Entries, LRUHandleTable.Valid, Drop;
      FirstOnList();
      e := lru.next;
      OnList(e);
      CachedById(e);
      AllLive({});
      DropWithout(order, 0);
      Take(e);
      Discard(e);
    }

    lemma ListEnd()
      requires ListOk()
      ensures lru.next == lru <==> order == []
    {
      Ends(lru, order);
      After(lru, order, 0);
      if order != [] {
        NotDummy(lru, order, 0);
      }
    }

    /** Evicts the oldest entries until `charge` fits or the list is empty. */
    method EvictFromLRU(charge: nat) returns (deleted: seq<LRUHandle>)
      requires Consistent()
      modifies this`lruLowPri, this`lruUsage, this`highPriPoolUsage, this`order, this`low, this`usage, this`live
      modifies lru`next, lru`prev, live`next, live`prev
      modifies table, table.list, live`nextHash, live`inCache, live`refs
      ensures Consistent() && (usage + charge <= capacity || order == [])
      ensures old(order) == deleted + order && table.list == old(table.list)
      ensures Gone(deleted, old(live), live, old(table.entries), table.entries) && usage + Charge(deleted) == old(usage)
      ensures Retired(deleted)
      ensures deleted != [] ==> usage + deleted[|deleted| - 1].charge + charge > capacity
    {
      hide ListOk, PoolOk, TotalsOk, Entries, LRUHandleTable.Valid, Charge, Gone, Drop;
      deleted := [];
      NoCharge();
      NothingGone(live, table.entries);
      while usage + charge > capacity && lru.next != lru
        invariant Consistent() && old(order) == deleted + order && table.list == old(table.list)
        invariant Gone(deleted, old(live), live, old(table.entries), table.entries) && Retired(deleted)
        invariant usage + Charge(deleted) == old(usage)
        invariant deleted != [] ==> usage + deleted[|deleted| - 1].charge + charge > capacity
        decreases |order|
      {
        ListEnd();
        GoneLive(deleted, old(live), live, old(table.entries), table.entries);
        ghost var before, live0 := table.entries, live;
        var e := EvictOldest();
        GoneOneMore(deleted, e, old(live), live0, old(table.entries), before);
        ChargeSnoc(deleted, e);
        deleted := deleted + [e];
      }
      ListEnd();
    }

    /** Runs the deleter: only for an entry no longer in use, and once. */
    method Free(e: LRUHandle)
      requires Valid() && e !in live && e !in freed && ((e.refs == 1 && e.inCache) || (e.refs == 0 && !e.inCache))
      modifies this`freed
      ensures Valid() && freed == old(freed) + {e}
    {
      hide ListOk, PoolOk, Entries, LRUHandleTable.Valid, Total;
      freed := freed + {e};
    }

    method FreeAll(deleted: seq<LRUHandle>)
      requires Valid() && Distinct(deleted)
      requires forall e :: e in deleted ==> e !in live && e !in freed
      requires forall e :: e in deleted ==> (e.refs == 1 && e.inCache) || (e.refs == 0 && !e.inCache)
      modifies this`freed
      ensures Valid() && freed == old(freed) + (set e | e in deleted)
    {
      hide ListOk, PoolOk, TotalsOk, Entries, LRUHandleTable.Valid;
      for i := 0 to |deleted|
        invariant Valid() && freed == old(freed) + (set e | e in deleted[..i])
      {
        assert deleted[..i + 1] == deleted[..i] + [deleted[i]];
        Free(deleted[i]);
      }
      assert deleted[..|deleted|] == deleted;
    }

    lemma ListDistinct()
      requires ListOk()
      ensures Distinct(order)
    {
    }

    /** Evicts and frees what does not fit any more. */
    method Shrink()
      requires Consistent() && !fixed
      modifies this`freed
      modifies this`lruLowPri, this`lruUsage, this`highPriPoolUsage, this`order, this`low, this`usage, this`live
      modifies lru`next, lru`prev, live`next, live`prev
      modifies table, table.list, live`nextHash, live`inCache, live`refs
      ensures Valid() && (usage <= capacity || order == [])
      ensures live + freed == old(live) + old(freed) && live <= old(live) && usage <= old(usage)
      ensures table.list == old(table.list) && forall k :: k in old(table.entries) ==>
                if k in table.entries then table.entries[k] == old(table.entries)[k] else old(table.entries)[k] in freed
      ensures table.entries.Keys <= old(table.entries).Keys && order == Drop(old(order), freed)
    {
      hide ListOk, Entries, LRUHandleTable.Valid, Total, PoolOk, Drop;
      ListDistinct();
      AllLive({});
      var deleted := EvictFromLRU(0);
      DropPrefix(deleted, order);
      FreeAll(deleted);
      DropSame(old(order), SetOf(deleted), freed);
    }

    method SetCapacity(capacity: nat)
      requires Consistent()
      modifies this`capacity, this`highPriPoolCapacity, this`freed, this`fixed
      modifies this`lruLowPri, this`lruUsage, this`highPriPoolUsage, this`order, this`low, this`usage, this`live
      modifies lru`next, lru`prev, live`next, live`prev
      modifies table, table.list, live`nextHash, live`inCache, live`refs
      ensures Valid() && this.capacity == capacity && (usage <= capacity || order == []) && !fixed
      ensures live + freed == old(live) + old(freed) && live <= old(live) && usage <= old(usage)
      ensures table.list == old(table.list) && forall k :: k in old(table.entries) ==>
                if k in table.entries then table.entries[k] == old(table.entries)[k] else old(table.entries)[k] in freed
      ensures table.entries.Keys <= old(table.entries).Keys && order == Drop(old(order), freed)
    {
      hide ListOk, Entries, LRUHandleTable.Valid, TotalsOk, PoolCapacity, Drop, Charge;
      AllLive({});
      fixed := false;
      this.capacity := capacity;
      highPriPoolCapacity := PoolCapacity(capacity, highPriPoolRatio);
      Shrink();
    }

    constructor (capacity: nat, strictCapacityLimit: bool, highPriPoolRatio: real)
      ensures Valid() && this.capacity == capacity && this.strictCapacityLimit == strictCapacityLimit
      ensures fixed == strictCapacityLimit
      ensures usage == 0 && live == {} && freed == {} && clients == multiset{} && table.entries == map[]
      ensures fresh(table) && fresh(table.list) && fresh(lru)
    {
      hide Valid, Consistent, LRUHandleTable.Valid;
      table := new LRUHandleTable();
      var dummy := new LRUHandle(Id(0, 0), 0, false, 0);
      lru, lruLowPri := dummy, dummy;
      this.strictCapacityLimit, this.highPriPoolRatio := strictCapacityLimit, highPriPoolRatio;
      this.capacity, highPriPoolCapacity := 0, 0.0;
      usage, lruUsage, highPriPoolUsage := 0, 0, 0;
      order, low, clients, live, freed, fixed := [], 0, multiset{}, {}, {}, false;
      new;
      lru.next, lru.prev := lru, lru;
      EmptyShard();
      SetCapacity(capacity);
      Fix();
    }

    // ----- putting entries on the list

    /** Where an entry goes on the list: to the head if it is of high priority or was hit and there is a pool
        for that, else to the head of the low-priority pool. */
    ghost function PlaceFor(e: LRUHandle): nat
      reads this`order, this`low, this`highPriPoolRatio, e`hasHit
    {
      if highPriPoolRatio > 0.0 && (e.isHighPri || e.hasHit) then |order| else low
    }

    /** The entry is the newest of the list, or of the low-priority pool. */
    ghost predicate AtHead(e: LRUHandle)
      reads this`order, this`low, this`highPriPoolRatio, e`hasHit
    {
      if highPriPoolRatio > 0.0 && (e.isHighPri || e.hasHit) then order != [] && order[|order| - 1] == e
      else 0 < low <= |order| && order[low - 1] == e
    }

    /** At the head of the list. */
    method InsertHigh(e: LRUHandle)
      requires ListOk() && e !in order && e != lru
      modifies this`lruUsage, this`highPriPoolUsage, this`order
      modifies lru`next, lru`prev, order`next, order`prev, e`next, e`prev, e`inHighPriPool
      ensures ListOk() && order == With(old(order), |old(order)|, e)
    {
      hide Charge, Ring, Proper;
      Ends(lru, order);
      ChargeWith(order, |order|, low, e);
      Link(e, lru.prev, lru, lru, order, |order|);
      e.inHighPriPool := true;
      highPriPoolUsage := highPriPoolUsage + e.charge;
      order := With(order, |order|, e);
      lruUsage := lruUsage + e.charge;
    }

    /** At the head of the low-priority pool. */
    method InsertLow(e: LRUHandle)
      requires ListOk() && e !in order && e != lru
      modifies this`lruUsage, this`lruLowPri, this`order, this`low
      modifies lru`next, lru`prev, order`next, order`prev, e`next, e`prev, e`inHighPriPool
      ensures ListOk() && order == With(old(order), old(low), e) && low == old(low) + 1
    {
      hide Charge, Ring, Proper;
      After(lru, order, low);
      ChargeWith(order, low, low, e);
      Link(e, lruLowPri, lruLowPri.next, lru, order, low);
      e.inHighPriPool := false;
      lruLowPri := e;
      order, low := With(order, low, e), low + 1;
      lruUsage := lruUsage + e.charge;
    }

    /** The oldest entry of the high-priority pool becomes the newest of the other. */
    method Overflow()
      requires ListOk() && low < |order|
      modifies this`lruLowPri, this`highPriPoolUsage, this`low, order`inHighPriPool
      ensures ListOk() && low == old(low) + 1
    {
      hide Charge, Ring;
      HighCharge(order, low);
      After(lru, order, low);
      NotDummy(lru, order, low);
      lruLowPri := lruLowPri.next;
      assert lruLowPri != lru;
      lruLowPri.inHighPriPool := false;
      highPriPoolUsage := highPriPoolUsage - lruLowPri.charge;
      low := low + 1;
    }

    /** Where the low-priority pool ends: before the dummy if there is no other, and then that has no charge. */
    lemma PoolEnd()
      requires ListOk()
      ensures lruLowPri.next == lru <==> low == |order|
      ensures low == |order| ==> highPriPoolUsage == 0
    {
      hide Ring;
      After(lru, order, low);
      if low < |order| {
        NotDummy(lru, order, low);
      }
    }

    /** `ok` is false if the code's assertion fails that the dummy head is never reached: this needs a negative
        capacity. */
    method MaintainPoolSize() returns (ok: bool)
      requires ListOk()
      modifies this`lruLowPri, this`highPriPoolUsage, this`low, order`inHighPriPool
      ensures ListOk() && old(low) <= low <= |order|
      ensures ok <==> highPriPoolCapacity >= 0.0
      ensures if ok then highPriPoolUsage as real <= highPriPoolCapacity else low == |order|
      ensures old(low) < low ==> Charge(order[low - 1..]) as real > highPriPoolCapacity
    {
      hide Charge, Ring, Circle, Proper;
      while highPriPoolUsage as real > highPriPoolCapacity
        invariant ListOk() && old(low) <= low <= |order|
        invariant old(low) < low ==> Charge(order[low - 1..]) as real > highPriPoolCapacity
        decreases |order| - low
      {
        PoolEnd();
        if lruLowPri.next == lru {
          return false;
        }
        Overflow();
      }
      ok := true;
    }

    method LRU_Insert(e: LRUHandle)
      requires ListOk() && e !in order && e != lru && e.next == null && e.prev == null
      requires highPriPoolRatio > 0.0 ==> highPriPoolCapacity >= 0.0
      modifies this`lruLowPri, this`lruUsage, this`highPriPoolUsage, this`order, this`low
      modifies lru`next, lru`prev, order`next, order`prev, e`next, e`prev, e`inHighPriPool, order`inHighPriPool
      ensures ListOk() && low >= old(low) && AtHead(e)
      ensures var high := highPriPoolRatio > 0.0 && (e.isHighPri || e.hasHit);
              && order == With(old(order), if high then |old(order)| else old(low), e)
              && (high ==> highPriPoolUsage as real <= highPriPoolCapacity)
              && (!high ==> low == old(low) + 1)
    {
      hide Charge, Ring, Proper;
      if highPriPoolRatio > 0.0 && (e.isHighPri || e.hasHit) {
        InsertHigh(e);
        var ok := MaintainPoolSize();
        assert ok;
      } else {
        InsertLow(e);
      }
    }

    // ----- inserting

    /** A reference already counted in an entry on no list becomes a client's. */
    ghost method Give(e: LRUHandle)
      requires ConsistentBut({e}) && e in live && e !in order && e.next == null && e.prev == null
      requires Counted(e, Cached(), clients + multiset{e})
      modifies this`clients
      ensures Consistent() && clients == old(clients) + multiset{e}
    {
      hide ListOk, PoolOk, TotalsOk, LRUHandleTable.Valid;
      clients := clients + multiset{e};
      forall h | h in live ensures Counted(h, Cached(), clients) && Listed(h, Cached(), clients, order) {
        if h != e {
          assert old(Counted(h, Cached(), clients) && Listed(h, Cached(), clients, order));
        }
      }
    }

    /** A client gets a new reference to an entry on no list. */
    method Hold(e: LRUHandle)
      requires ConsistentBut({e}) && e in live && e !in order && e.next == null && e.prev == null
      requires Counted(e, Cached(), clients)
      modifies this`clients, e`refs
      ensures Consistent() && clients == old(clients) + multiset{e}
    {
      hide ListOk, PoolOk, TotalsOk, LRUHandleTable.Valid;
      e.refs := e.refs + 1;
      Give(e);
    }

    /** A client gives a reference back. */
    method DropClient(e: LRUHandle)
      requires Consistent() && e in clients
      modifies this`clients, e`refs
      ensures ConsistentBut({e}) && clients == old(clients) - multiset{e}
      ensures e in live && e !in order && e.next == null && e.prev == null && Counted(e, Cached(), clients)
    {
      hide ListOk, PoolOk, TotalsOk, LRUHandleTable.Valid, Drop;
      assert Counted(e, Cached(), clients) && Listed(e, Cached(), clients, order);
      e.refs := e.refs - 1;
      clients := clients - multiset{e};
      forall h | h in live && h != e
        ensures (h in Cached() || h in clients) && Counted(h, Cached(), clients) && Listed(h, Cached(), clients, order)
      {
        assert old(Counted(h, Cached(), clients) && Listed(h, Cached(), clients, order));
      }
    }

    lemma PoolNotNegative()
      requires PoolOk()
      ensures highPriPoolRatio > 0.0 ==> highPriPoolCapacity >= 0.0
    {
    }

    lemma Elsewhere(e: LRUHandle)
      requires TotalsOk() && e in live
      ensures e != lru
    {
    }

    lemma NotOnList()
      requires TotalsOk() && ListOk()
      ensures lru !in live && low <= |order|
    {
    }

    /** Puts an entry that only the table refers to on the list. */
    method Put(e: LRUHandle)
      requires ConsistentBut({e}) && e in live && e !in order && e.next == null && e.prev == null
      requires e in Cached() && e !in clients && Counted(e, Cached(), clients)
      modifies this`lruLowPri, this`lruUsage, this`highPriPoolUsage, this`order, this`low
      modifies lru`next, lru`prev, order`next, order`prev, e`next, e`prev, e`inHighPriPool, order`inHighPriPool
      ensures Consistent()
      ensures PutAt(old(order), old(PlaceFor(e)), e, order) && AtHead(e)
    {
      hide Counted, ListOk, PoolOk, TotalsOk, With, LRUHandleTable.Valid, AtHead, Cached, Drop, Charge, Total;
      PoolNotNegative();
      Elsewhere(e);
      NotOnList();
      LRU_Insert(e);
      GivenOrder(old(order), old(low), e);
      GivenOrder(old(order), |old(order)|, e);
      forall h | h in live && h != e ensures Listed(h, Cached(), clients, order) {
        assert old(Listed(h, Cached(), clients, order));
      }
    }

    lemma ListOkLow()
      requires ListOk()
      ensures low <= |order|
    {
    }

    lemma ListProper()
      requires ListOk()
      ensures Proper(lru, order)
    {
    }

    /** Takes off the list an entry that is in the table no more. */
    method TakeOff(e: LRUHandle, ghost x: set<LRUHandle>)
      requires table.Valid() && ListOk() && TotalsOk() && PoolOk() && e in order && e in live && e !in Cached()
      requires Entries(live, Cached() + {e}, clients, order, x + {e})
      modifies this`lruLowPri, this`lruUsage, this`highPriPoolUsage, this`order, this`low
      modifies lru`next, lru`prev, order`next, order`prev
      ensures ConsistentBut(x + {e}) && e !in order
      ensures order == Drop(old(order), {e})
    {
      hide Counted, ListOk, PoolOk, TotalsOk, LRUHandleTable.Valid, Drop;
      ghost var k :| 0 <= k < |order| && order[k] == e;
      NotOnList();
      ListProper();
      TakenOrder(order, k);
      DropWithout(order, k);
      ghost var cached := Cached() + {e};
      LRU_Remove(e, k);
      forall h | h in live && h !in x + {e}
        ensures Counted(h, Cached(), clients) && Listed(h, Cached(), clients, order)
      {
        assert old(Counted(h, cached, clients) && Listed(h, cached, clients, order));
        SameCount(h, cached, Cached(), clients);
      }
    }

    /** Drops the table's reference of an entry just removed from the table. */
    method Displace(e: LRUHandle, ghost x: set<LRUHandle>) returns (last: bool)
      requires table.Valid() && ListOk() && TotalsOk() && PoolOk() && e !in x
      requires e in live && e !in Cached() && Entries(live, Cached() + {e}, clients, order, x)
      modifies this`lruLowPri, this`lruUsage, this`highPriPoolUsage, this`order, this`low, this`usage, this`live
      modifies lru`next, lru`prev, order`next, order`prev, e`inCache, e`refs
      ensures ConsistentBut(x) && !e.inCache && (last <==> e !in clients)
      ensures last ==> e.refs == 0 && e in old(order) && live == old(live) - {e} && usage == old(usage) - e.charge
      ensures !last ==> live == old(live) && usage == old(usage) && order == old(order)
      ensures last ==> order == Drop(old(order), {e})
    {
      hide ListOk, PoolOk, TotalsOk, LRUHandleTable.Valid, Drop;
      assert Counted(e, Cached() + {e}, clients) && Listed(e, Cached() + {e}, clients, order);
      NotOnList();
      e.inCache := false;
      e.refs := e.refs - 1;
      last := e.refs == 0;
      if last {
        TakeOff(e, x);
        Bury(e, x);
      }
    }

    lemma SetsApart()
      requires Valid()
      ensures live !! freed && lru !in live && forall h :: h in order ==> h in live
    {
      hide ListOk, PoolOk, LRUHandleTable.Valid;
    }

    lemma Unknown(e: LRUHandle)
      requires EntriesBut({}) && e !in live
      ensures e !in order && e !in clients && e !in Cached()
    {
    }

    /** Puts a new entry into the table, where it may replace another. */
    method AddToTable(e: LRUHandle) returns (replaced: LRUHandle?)
      requires Consistent() && e !in live && e !in freed && e != lru
      modifies this`usage, this`live, table, table.list, Cached()`nextHash, e`nextHash
      ensures table.Valid() && ListOk() && TotalsOk() && PoolOk()
      ensures table.list == old(table.list) || fresh(table.list)
      ensures table.entries == old(table.entries)[e.id := e] && e in Cached()
      ensures replaced == if e.id in old(table.entries) then old(table.entries)[e.id] else null
      ensures live == old(live) + {e} && usage == old(usage) + e.charge
      ensures replaced == null ==> EntriesBut({e})
      ensures replaced != null ==>
                && replaced in live && replaced != e && replaced !in Cached()
                && Entries(live, Cached() + {replaced}, clients, order, {e})
    {
      hide ListOk, PoolOk, Total, Entries, LRUHandleTable.Valid;
      ghost var cached := Cached();
      AllLive({});
      NewEntry(live, cached, clients, order, e);
      replaced := Enter(e);
      AddTotal(live, e);
      usage := usage + e.charge;
      live := live + {e};
      if replaced != null {
        assert Cached() + {replaced} == cached + {e};
      }
    }

    lemma AllLiveBut(cached: set<LRUHandle>, x: set<LRUHandle>)
      requires Entries(live, cached, clients, order, x)
      ensures cached <= live && forall h :: h in order ==> h in live
    {
    }

    /** Puts a new entry into the table, and drops the table's reference to the one it replaces. */
    method Replace(e: LRUHandle) returns (out: LRUHandle?)
      requires Consistent() && e !in live && e !in freed && e != lru
      modifies this`lruLowPri, this`lruUsage, this`highPriPoolUsage, this`order, this`low, this`usage, this`live
      modifies lru`next, lru`prev, live`next, live`prev, live`refs, live`inCache
      modifies table, table.list, live`nextHash, e`nextHash
      ensures ConsistentBut({e}) && (table.list == old(table.list) || fresh(table.list))
      ensures table.entries == old(table.entries)[e.id := e] && e in Cached() && e !in order && e !in clients
      ensures out != null <==> e.id in old(table.entries) && old(table.entries)[e.id] !in clients
      ensures out != null ==> out == old(table.entries)[e.id] && out in old(live) && out.refs == 0 && !out.inCache
      ensures live == old(live) + {e} - Only(out) && usage + ChargeOf(out) == old(usage) + e.charge
      ensures order == Drop(old(order), Only(out)) && (old(order) == [] ==> order == [])
    {
      hide ListOk, PoolOk, TotalsOk, Entries, LRUHandleTable.Valid, Drop;
      AllLive({});
      Unknown(e);
      out := AddToTable(e);
      DropNone(order, {});
      if out != null {
        AllLiveBut(Cached() + {out}, {e});
        DropIn(order, {out});
        var last := Displace(out, {e});
        if !last {
          out := null;
        }
      }
    }

    lemma LiveBut(e: LRUHandle)
      requires ConsistentBut({e})
      ensures Cached() <= live && forall h :: h in order ==> h in live
    {
      hide ListOk, PoolOk, TotalsOk, LRUHandleTable.Valid;
    }

    lemma ValidIf()
      requires Consistent() && (usage > capacity ==> order == []) && Bounded()
      ensures Valid()
    {
      hide Consistent;
    }

    /** A new entry goes to its client or onto the list. */
    method Finish(e: LRUHandle, hold: bool)
      requires ConsistentBut({e}) && e in live && e in Cached() && e !in order && e !in clients
      requires e.inCache && e.refs == (if hold then 2 else 1) && e.next == null && e.prev == null
      modifies this`lruLowPri, this`lruUsage, this`highPriPoolUsage, this`order, this`low, this`clients
      modifies lru`next, lru`prev, order`next, order`prev, e`next, e`prev, e`inHighPriPool, order`inHighPriPool
      ensures Consistent() && clients == old(clients) + if hold then multiset{e} else multiset{}
      ensures hold ==> order == old(order)
      ensures Drop(order, {e}) == old(order) && (!hold ==> AtHead(e))
    {
      hide ListOk, PoolOk, TotalsOk, Entries, Counted, LRUHandleTable.Valid, Drop;
      hide AtHead;
      NewCounted(e, Cached(), clients);
      if hold {
        DropNone(order, {e});
        Give(e);
      } else {
        ListOkLow();
        DropWith(order, PlaceFor(e), e);
        Put(e);
      }
    }

    /** Puts a new entry that has room, or a holder, into the cache; returns what it displaced for good. */
    method Place(e: LRUHandle, hold: bool) returns (out: LRUHandle?)
      requires Consistent() && e !in live && e !in freed && e != lru
      requires e.inCache && e.refs == (if hold then 2 else 1) && e.next == null && e.prev == null
      requires usage + e.charge <= capacity || (hold && order == [])
      requires fixed ==> strictCapacityLimit && usage + e.charge <= capacity
      modifies this`lruLowPri, this`lruUsage, this`highPriPoolUsage, this`order, this`low
      modifies this`usage, this`live, this`clients
      modifies lru`next, lru`prev, live`next, live`prev, live`refs, live`inCache, live`inHighPriPool
      modifies table, table.list, live`nextHash, e`next, e`prev, e`nextHash, e`inHighPriPool
      ensures Valid() && (table.list == old(table.list) || fresh(table.list))
      ensures table.entries == old(table.entries)[e.id := e]
      ensures clients == old(clients) + if hold then multiset{e} else multiset{}
      ensures out != null <==> e.id in old(table.entries) && old(table.entries)[e.id] !in old(clients)
      ensures out != null ==> out == old(table.entries)[e.id] && out in old(live) && out.refs == 0 && !out.inCache
      ensures live == old(live) + {e} - Only(out) && usage + ChargeOf(out) == old(usage) + e.charge
      ensures Drop(order, {e}) == Drop(old(order), Only(out)) && (!hold ==> AtHead(e))
    {
      hide Valid, Consistent, ConsistentBut, Cached, Drop, AtHead;
      out := Replace(e);
      LiveBut(e);
      assert forall h :: h in order ==> h in old(live);
      Finish(e, hold);
      ValidIf();
    }

    lemma Pinned()
      requires Consistent()
      ensures lruUsage == Charge(order) <= usage
    {
      TotalAtLeast(order, live);
    }

    lemma NoChargeIf(order: seq<LRUHandle>)
      ensures order == [] ==> Charge(order) == 0
    {
    }

    /** Eviction leaves what clients pin; without room for `charge` nothing else is left. */
    method MakeRoom(charge: nat) returns (deleted: seq<LRUHandle>)
      requires Consistent()
      modifies this`lruLowPri, this`lruUsage, this`highPriPoolUsage, this`order, this`low, this`usage, this`live
      modifies lru`next, lru`prev, live`next, live`prev
      modifies table, table.list, live`nextHash, live`inCache, live`refs
      ensures Consistent() && table.list == old(table.list) && usage <= old(usage)
      ensures Gone(deleted, old(live), live, old(table.entries), table.entries) && Retired(deleted)
      ensures lruUsage <= usage && usage - lruUsage == old(usage) - old(lruUsage)
      ensures usage + charge <= capacity || (order == [] && lruUsage == 0)
      ensures order == Drop(old(order), SetOf(deleted))
    {
      hide ListOk, PoolOk, TotalsOk, Entries, LRUHandleTable.Valid, Charge, Gone, Drop;
      Pinned();
      ListDistinct();
      deleted := EvictFromLRU(charge);
      DropPrefix(deleted, order);
      ChargeJoin(deleted, order);
      Pinned();
      NoChargeIf(order);
    }

    /** Insert under the mutex; `deleted` are the entries to free afterwards. */
    method InsertLocked(e: LRUHandle, hold: bool) returns (inserted: bool, deleted: seq<LRUHandle>)
      requires Valid() && e !in live && e !in freed && e != lru
      requires e.inCache && e.refs == (if hold then 2 else 1) && e.next == null && e.prev == null
      modifies this`lruLowPri, this`lruUsage, this`highPriPoolUsage, this`order, this`low
      modifies this`usage, this`live, this`clients
      modifies lru`next, lru`prev, live`next, live`prev, live`refs, live`inCache, live`inHighPriPool
      modifies table, table.list, live`nextHash, e`next, e`prev, e`nextHash, e`inHighPriPool
      ensures Valid() && (table.list == old(table.list) || fresh(table.list)) && Retired(deleted)
      // what clients pin decides, not what could be evicted
      ensures inserted <==> old(usage) - old(lruUsage) + e.charge <= capacity || (!strictCapacityLimit && hold)
      ensures clients == old(clients) + if inserted && hold then multiset{e} else multiset{}
      ensures Inserted(if inserted then {e} else {}, deleted, old(live), live, old(table.entries), table.entries)
      ensures usage <= old(usage) || (inserted && (usage <= capacity || (!strictCapacityLimit && hold)))
      // what stays on the list stays in order
      ensures Drop(order, {e}) == Drop(old(order), SetOf(deleted)) && (inserted && !hold ==> AtHead(e))
    {
      hide ListOk, PoolOk, TotalsOk, Entries, LRUHandleTable.Valid, Gone, Inserted, Drop, AtHead;
      Unknown(e);
      deleted := MakeRoom(e.charge);
      DropIn(old(order), SetOf(deleted));
      GoneLive(deleted, old(live), live, old(table.entries), table.entries);
      inserted := !(usage - lruUsage + e.charge > capacity && (strictCapacityLimit || !hold));
      ghost var deleted0, live0, entries0 := deleted, live, table.entries;
      if inserted {
        var out := Place(e, hold);
        if out != null {
          deleted := deleted + [out];
        } else {
          assert deleted + [] == deleted;
        }
        PlacedAfter(e, deleted0, out, old(live), live0, old(table.entries), entries0);
        DropTwice(old(order), SetOf(deleted0), Only(out));
        DeletedSet(deleted0, out);
      } else {
        DropNone(order, {e});
        NotPlaced(deleted, old(live), live, old(table.entries), table.entries);
      }
    }

    lemma EntriesById()
      requires Valid()
      ensures forall k :: k in table.entries ==> table.entries[k].id == k
    {
      hide LRUHandleTable.Valid, ListOk, PoolOk, TotalsOk, Entries;
      table.ValidById();
    }

    /** Insert, once the entry is made. */
    method InsertEntry(e: LRUHandle, hold: bool) returns (inserted: bool)
      requires Valid() && e !in live && e !in freed && e != lru
      requires e.inCache && e.refs == (if hold then 2 else 1) && e.next == null && e.prev == null
      modifies this`lruLowPri, this`lruUsage, this`highPriPoolUsage, this`order, this`low
      modifies this`usage, this`live, this`clients, this`freed
      modifies lru`next, lru`prev, live`next, live`prev, live`refs, live`inCache, live`inHighPriPool
      modifies table, table.list, live`nextHash, e`next, e`prev, e`nextHash, e`inHighPriPool
      ensures Valid() && (table.list == old(table.list) || fresh(table.list))
      ensures inserted <==> old(usage) - old(lruUsage) + e.charge <= capacity || (!strictCapacityLimit && hold)
      ensures clients == old(clients) + if inserted && hold then multiset{e} else multiset{}
      // what left the shard was freed, and nothing else was
      ensures live + freed == old(live) + old(freed) + (if inserted || !hold then {e} else {})
      ensures live <= old(live) + {e} && old(freed) <= freed
      ensures inserted ==> e in live && e.id in table.entries && table.entries[e.id] == e
      ensures forall k :: k in table.entries && table.entries[k] != e ==>
                k in old(table.entries) && table.entries[k] == old(table.entries)[k]
      ensures table.entries.Keys <= old(table.entries.Keys) + {e.id}
      ensures forall k :: k in old(table.entries) ==> k in table.entries || old(table.entries)[k] in freed
      ensures usage <= old(usage) || (inserted && (usage <= capacity || (!strictCapacityLimit && hold)))
      ensures Drop(order, {e}) == Drop(old(order), freed) && (inserted && !hold ==> AtHead(e))
    {
      hide Valid, Drop;
      SetsApart();
      var deleted;
      inserted, deleted := InsertLocked(e, hold);
      ghost var gone := SetOf(deleted);
      if !inserted && !hold {
        deleted := deleted + [e];
      }
      FreeAll(deleted);
      DropSame(old(order), gone, freed);
      EntriesById();
    }

    /** `ok` is false only for a caller who wanted a handle; `inserted` tells whether the cache has the entry `e`. */
    method Insert(id: Id, charge: nat, isHighPri: bool, hold: bool)
      returns (ok: bool, handle: LRUHandle?, ghost e: LRUHandle, ghost inserted: bool)
      requires Valid()
      modifies this`lruLowPri, this`lruUsage, this`highPriPoolUsage, this`order, this`low
      modifies this`usage, this`live, this`clients, this`freed
      modifies lru`next, lru`prev, live`next, live`prev, live`refs, live`inCache, live`inHighPriPool
      modifies table, table.list, live`nextHash
      ensures Valid() && (table.list == old(table.list) || fresh(table.list))
      ensures fresh(e) && e.id == id && e.charge == charge && e.isHighPri == isHighPri
      ensures inserted <==> old(usage) - old(lruUsage) + charge <= capacity || (!strictCapacityLimit && hold)
      ensures (ok <==> inserted || !hold) && handle == if inserted && hold then e else null
      ensures clients == old(clients) + if handle == null then multiset{} else multiset{handle}
      ensures live + freed == old(live) + old(freed) + (if ok then {e} else {})
      ensures live <= old(live) + {e} && old(freed) <= freed
      ensures inserted ==> e in live && id in table.entries && table.entries[id] == e
      ensures forall k :: k in table.entries && table.entries[k] != e ==>
                k in old(table.entries) && table.entries[k] == old(table.entries)[k]
      ensures table.entries.Keys <= old(table.entries.Keys) + {e.id}
      ensures forall k :: k in old(table.entries) ==> k in table.entries || old(table.entries)[k] in freed
      ensures usage <= old(usage) || (inserted && (usage <= capacity || (!strictCapacityLimit && hold)))
      ensures Drop(order, {e}) == Drop(old(order), freed) && (inserted && !hold ==> AtHead(e))
    {
      hide ListOk, PoolOk, TotalsOk, Entries, LRUHandleTable.Valid, Drop;
      var x := new LRUHandle(id, charge, isHighPri, if hold then 2 else 1);
      var added := InsertEntry(x, hold);
      e, inserted := x, added;
      ok := added || !hold;
      handle := if added && hold then x else null;
    }

    method Enter(e: LRUHandle) returns (replaced: LRUHandle?)
      requires table.Valid() && e !in Cached()
      modifies table, table.list, Cached()`nextHash, e`nextHash
      ensures table.Valid() && (table.list == old(table.list) || fresh(table.list))
      ensures table.entries == old(table.entries)[e.id := e]
      ensures replaced == if e.id in old(table.entries) then old(table.entries)[e.id] else null
      ensures replaced == null ==> Cached() == old(Cached()) + {e}
      ensures replaced != null ==> replaced in old(Cached()) && Cached() == old(Cached()) - {replaced} + {e}
    {
      hide LRUHandleTable.Valid;
      table.ValidById();
      ValuesWith(table.entries, e);
      replaced := table.Insert(e);
    }

    // ----- the operations

    /** An entry is on the list if only the table refers to it; else it is on no list. */
    lemma IdleOrHeld(e: LRUHandle)
      requires EntriesBut({}) && e in live
      ensures e in order <==> e.inCache && e.refs == 1
      ensures e !in order ==> e.next == null && e.prev == null
      ensures Counted(e, Cached(), clients) && EntriesBut({e})
    {
      assert Counted(e, Cached(), clients) && Listed(e, Cached(), clients, order);
    }

    /** Gives a client a reference to a live entry, taking it off the list if it was there. */
    method Acquire(e: LRUHandle)
      requires Valid() && e in live
      modifies this`lruLowPri, this`lruUsage, this`highPriPoolUsage, this`order, this`low, this`clients
      modifies lru`next, lru`prev, live`next, live`prev, live`refs
      ensures Valid() && clients == old(clients) + multiset{e} && order == Drop(old(order), {e})
    {
      hide ListOk, PoolOk, TotalsOk, Entries, Counted, LRUHandleTable.Valid, Drop;
      AllLive({});
      IdleOrHeld(e);
      if e.inCache && e.refs == 1 {
        Take(e);
        TableOnly(e, Cached(), clients);
      } else {
        DropNone(order, {e});
      }
      Hold(e);
    }

    method Lookup(id: Id) returns (e: LRUHandle?)
      requires Valid()
      modifies this`lruLowPri, this`lruUsage, this`highPriPoolUsage, this`order, this`low, this`clients
      modifies lru`next, lru`prev, live`next, live`prev, live`refs, live`hasHit
      ensures Valid() && e == (if id in table.entries then table.entries[id] else null) && (e != null ==> e.hasHit)
      ensures clients == old(clients) + if e == null then multiset{} else multiset{e}
      ensures order == if e == null then old(order) else Drop(old(order), {e})
    {
      hide ListOk, PoolOk, TotalsOk, Entries, LRUHandleTable.Valid, Drop;
      e := table.Lookup(id);
      if e != null {
        assert id in table.entries && e in Cached();
        AllLive({});
        Acquire(e);
        e.hasHit := true;
      }
    }

    method Ref(e: LRUHandle)
      requires Valid() && e in live
      modifies this`lruLowPri, this`lruUsage, this`highPriPoolUsage, this`order, this`low, this`clients
      modifies lru`next, lru`prev, live`next, live`prev, live`refs
      ensures Valid() && clients == old(clients) + multiset{e} && order == Drop(old(order), {e})
    {
      hide ListOk, PoolOk, TotalsOk, Entries, LRUHandleTable.Valid, Drop;
      Acquire(e);
    }

    /** An entry with references left, other than the table's alone, belongs on no list. */
    lemma Unlisted(e: LRUHandle)
      requires EntriesBut({e}) && Counted(e, Cached(), clients) && e !in order && e.next == null && e.prev == null
      requires e.refs > 0 && !(e.refs == 1 && e.inCache)
      ensures EntriesBut({})
    {
      assert Listed(e, Cached(), clients, order);
    }

    /** What becomes of an entry that a client gave back. */
    method Settle(e: LRUHandle, forceErase: bool) returns (last: bool)
      requires ConsistentBut({e}) && (usage > capacity ==> order == []) && Bounded()
      requires e in live && e !in order && e.next == null && e.prev == null && Counted(e, Cached(), clients)
      modifies this`lruLowPri, this`lruUsage, this`highPriPoolUsage, this`order, this`low, this`usage, this`live
      modifies lru`next, lru`prev, live`next, live`prev, live`refs, live`inCache, live`inHighPriPool
      modifies table, table.list, live`nextHash
      ensures Valid() && table.list == old(table.list)
      ensures last <==> e !in clients && (e !in old(Cached()) || old(usage) > capacity || forceErase)
      ensures last ==> live == old(live) - {e} && usage == old(usage) - e.charge && e.refs == 0 && !e.inCache
      ensures !last ==> live == old(live) && usage == old(usage)
      ensures table.entries == old(table.entries) - if last && e in old(Cached()) then {e.id} else {}
      ensures if !last && e in Cached() && e !in clients then PutAt(old(order), old(PlaceFor(e)), e, order)
              else order == old(order)
    {
      hide ListOk, PoolOk, TotalsOk, Entries, LRUHandleTable.Valid;
      AllLive({e});
      last := e.refs == 0;
      if last {
        assert {} + {e} == {e};
        Bury(e, {});
      } else if e.refs == 1 && e.inCache {
        if usage > capacity || forceErase {
          assert !(usage > capacity) || order == [];
          Discard(e);
          last := true;
        } else {
          Put(e);
        }
      } else {
        Unlisted(e);
      }
    }

    lemma ClientLive(e: LRUHandle)
      requires EntriesBut({}) && TotalsOk() && e in clients
      ensures e in live && e !in freed
    {
    }

    method ReleaseHeld(e: LRUHandle, forceErase: bool) returns (last: bool)
      requires Valid() && e in clients
      modifies this`lruLowPri, this`lruUsage, this`highPriPoolUsage, this`order, this`low
      modifies this`usage, this`live, this`clients
      modifies lru`next, lru`prev, live`next, live`prev, live`refs, live`inCache, live`inHighPriPool
      modifies table, table.list, live`nextHash
      ensures Valid() && table.list == old(table.list) && clients == old(clients) - multiset{e}
      ensures last <==> e !in clients && (e !in old(Cached()) || old(usage) > capacity || forceErase)
      ensures last ==> live == old(live) - {e} && usage == old(usage) - e.charge && e.refs == 0 && !e.inCache
      ensures !last ==> live == old(live) && usage == old(usage)
      ensures table.entries == old(table.entries) - if last && e in old(Cached()) then {e.id} else {}
      ensures if !last && e in Cached() && e !in clients then PutAt(old(order), old(PlaceFor(e)), e, order)
              else order == old(order)
    {
      hide ListOk, PoolOk, TotalsOk, Entries, Counted, LRUHandleTable.Valid, Drop;
      ClientLive(e);
      DropClient(e);
      last := Settle(e, forceErase);
    }

    method Release(e: LRUHandle?, forceErase: bool) returns (last: bool)
      requires Valid() && (e != null ==> e in clients)
      modifies this`lruLowPri, this`lruUsage, this`highPriPoolUsage, this`order, this`low
      modifies this`usage, this`live, this`clients, this`freed
      modifies lru`next, lru`prev, live`next, live`prev, live`refs, live`inCache, live`inHighPriPool
      modifies table, table.list, live`nextHash
      ensures Valid() && table.list == old(table.list)
      ensures clients == old(clients) - if e == null then multiset{} else multiset{e}
      // freed exactly when no reference is left, or the cache gives up its own
      ensures last <==> e != null && e !in clients && (e !in old(Cached()) || old(usage) > capacity || forceErase)
      ensures last ==> freed == old(freed) + {e} && live == old(live) - {e} && usage == old(usage) - e.charge
      ensures !last ==> freed == old(freed) && live == old(live) && usage == old(usage)
      ensures table.entries == old(table.entries) - if last && e in old(Cached()) then {e.id} else {}
      ensures if e != null && !last && e in Cached() && e !in clients then PutAt(old(order), old(PlaceFor(e)), e, order)
              else order == old(order)
    {
      hide ListOk, PoolOk, TotalsOk, Entries, LRUHandleTable.Valid;
      if e == null {
        return false;
      }
      ClientLive(e);
      last := ReleaseHeld(e, forceErase);
      if last {
        Free(e);
      }
    }

    lemma LiveNotFreed()
      requires TotalsOk()
      ensures live !! freed && lru !in live
    {
    }

    lemma HeldNotFreed(e: LRUHandle)
      requires Valid() && e in clients
      ensures e in live && e !in freed
    {
      hide ListOk, PoolOk, LRUHandleTable.Valid;
    }

    /** The list and the table hold live entries only. */
    lemma WithinLive()
      requires Valid()
      ensures Cached() <= live && forall h :: h in order ==> h in live
    {
      hide ListOk, PoolOk, TotalsOk, LRUHandleTable.Valid;
    }

    method Erase(id: Id)
      requires Valid()
      modifies this`lruLowPri, this`lruUsage, this`highPriPoolUsage, this`order, this`low
      modifies this`usage, this`live, this`freed
      modifies lru`next, lru`prev, live`next, live`prev, live`refs, live`inCache
      modifies table, table.list, live`nextHash
      ensures Valid() && table.entries == old(table.entries) - {id} && table.list == old(table.list)
      // freed at once unless a client holds it
      ensures var gone := if id in old(table.entries) && old(table.entries)[id] !in clients
                          then {old(table.entries)[id]} else {};
              && live == old(live) - gone && freed == old(freed) + gone && usage <= old(usage)
              && order == Drop(old(order), gone)
    {
      hide ListOk, PoolOk, TotalsOk, Entries, LRUHandleTable.Valid, Drop;
      LiveNotFreed();
      AllLive({});
      ghost var cached := Cached();
      DropNone(order, {});
      var e := RemoveFromTable(id);
      if e != null {
        assert Cached() + {e} == cached;
        var last := Displace(e, {});
        if last {
          Free(e);
        }
      }
    }

    method SetStrictCapacityLimit(strict: bool)
      requires Valid()
      modifies this`strictCapacityLimit, this`fixed
      ensures Valid() && strictCapacityLimit == strict && !fixed
    {
      hide ListOk, PoolOk, TotalsOk, Entries, LRUHandleTable.Valid;
      strictCapacityLimit, fixed := strict, false;
    }

    /** `ok` is false if the code's assertion fails: a negative ratio of a capacity other than 0. */
    method SetHighPriorityPoolRatio(ratio: real) returns (ok: bool)
      requires Valid()
      modifies this`highPriPoolRatio, this`highPriPoolCapacity, this`lruLowPri, this`highPriPoolUsage, this`low
      modifies order`inHighPriPool
      ensures Valid() && highPriPoolRatio == ratio
      ensures ok <==> ratio >= 0.0 || capacity == 0
      ensures if ok then highPriPoolUsage as real <= PoolCapacity(capacity, ratio) else low == |order|
    {
      hide ListOk, TotalsOk, Entries, LRUHandleTable.Valid, Charge, Total, Cached;
      highPriPoolRatio := ratio;
      highPriPoolCapacity := PoolCapacity(capacity, highPriPoolRatio);
      ok := MaintainPoolSize();
    }

    lemma NoneIdle()
      requires EntriesBut({}) && order == []
      ensures forall e :: e in live ==> e in clients
    {
      forall e | e in live ensures e in clients {
        assert Listed(e, Cached(), clients, order);
      }
    }

    /** Evicts everything that no client holds. */
    method EraseUnRefEntries()
      requires Valid()
      modifies this`lruLowPri, this`lruUsage, this`highPriPoolUsage, this`order, this`low
      modifies this`usage, this`live, this`freed
      modifies lru`next, lru`prev, live`next, live`prev
      modifies table, table.list, live`nextHash, live`inCache, live`refs
      ensures Valid() && order == [] && table.list == old(table.list) && usage <= old(usage)
      ensures live + freed == old(live) + old(freed) && freed == old(freed) + (set e | e in old(order))
      ensures live <= old(live)
      ensures table.entries == old(table.entries) - set e | e in old(order) :: e.id
      ensures forall e :: e in live ==> e in clients
    {
      hide ListOk, PoolOk, TotalsOk, Entries, LRUHandleTable.Valid, Gone, Drop;
      LiveNotFreed();
      var deleted: seq<LRUHandle> := [];
      NothingGone(live, table.entries);
      ListEnd();
      while lru.next != lru
        invariant Consistent() && old(order) == deleted + order && table.list == old(table.list)
        invariant Gone(deleted, old(live), live, old(table.entries), table.entries) && Retired(deleted)
        invariant usage <= old(usage) && (lru.next == lru <==> order == []) && freed == old(freed)
        decreases |order|
      {
        GoneLive(deleted, old(live), live, old(table.entries), table.entries);
        ghost var entries0, live0 := table.entries, live;
        var e := EvictOldest();
        GoneOneMore(deleted, e, old(live), live0, old(table.entries), entries0);
        deleted := deleted + [e];
        ListEnd();
      }
      GoneAll(deleted, old(live), live, old(table.entries), table.entries);
      assert old(order) == deleted;
      NoneIdle();
      FreeAll(deleted);
    }

    /** Neither changes anything; the second asserts that the list's charge is part of the usage. */
    method GetUsage() returns (u: nat)
      requires Valid()
      ensures u == Total(live)
    {
      u := usage;
    }

    method GetPinnedUsage() returns (u: nat)
      requires Valid()
      ensures u == Total(live) - Charge(order)
    {
      Pinned();
      u := usage - lruUsage;
    }
  }
}
