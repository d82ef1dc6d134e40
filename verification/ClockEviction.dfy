/** The CLOCK sweep with no other operation in flight. */
module ClockEviction {
  import opened Records
  import opened ClockCache
  import opened Counting
  import P = ClockCacheProofs

  // ----- what a sweep may do to one handle

  predicate Survives(before: Handle, after: Handle)
  {
    after == before || after == before.(flags := WithoutUsage(before.flags))
  }

  predicate Evicted(before: Handle, after: Handle)
  {
    && InCache(before.flags) && CountRefs(before.flags) == 0
    && after == before.(flags := 0, key := None, recycled := before.recycled + 1)
  }

  /** The hand, which started at `head`, has passed handle `i` in this round. */
  predicate Passed(i: nat, head: nat, hand: nat)
  {
    if head <= hand then head <= i < hand else i >= head || i < hand
  }

  function StepsLeft(n: nat, head: nat, hand: nat, second: bool): nat
    requires head < n && hand < n
  {
    (if hand < head then head - hand else head + n - hand) + (if second then 0 else n)
  }

  /** First round: exactly the unused and unreferenced handles passed are gone. */
  predicate FirstRound(before: seq<Handle>, after: seq<Handle>, head: nat, hand: nat)
  {
    |before| == |after| &&
    forall i :: 0 <= i < |before| ==>
      if !Passed(i, head, hand) then after[i] == before[i]
      else if before[i].flags == IN_CACHE then Evicted(before[i], after[i])
      else after[i] == before[i].(flags := WithoutUsage(before[i].flags))
  }

  /** Second round: no usage bit is left, so no handle passed is both cached and unreferenced. */
  predicate SecondRound(before: seq<Handle>, after: seq<Handle>, head: nat, hand: nat)
  {
    |before| == |after| &&
    forall i :: 0 <= i < |before| ==>
      && (Evicted(before[i], after[i])
          || (before[i].flags != IN_CACHE && after[i] == before[i].(flags := WithoutUsage(before[i].flags))))
      && (Passed(i, head, hand) && InCache(after[i].flags) ==> CountRefs(after[i].flags) > 0)
  }

  lemma FirstRoundStep(before: seq<Handle>, list: seq<Handle>, after: seq<Handle>, head: nat, hand: nat)
    requires FirstRound(before, list, head, hand) && head < |list| && hand < |list| && |after| == |list|
    requires !Passed(hand, head, hand)
    requires forall i :: 0 <= i < |list| && i != hand ==> after[i] == list[i]
    requires if list[hand].flags == IN_CACHE then Evicted(list[hand], after[hand])
             else after[hand] == list[hand].(flags := WithoutUsage(list[hand].flags))
    ensures var next := if hand + 1 >= |list| then 0 else hand + 1;
            if next == head then SecondRound(before, after, head, head) else FirstRound(before, after, head, next)
  {
    hide InCache, CountRefs, HasUsage, WithoutUsage;
    P.FreshWords();
  }

  lemma Idempotent(w: nat)
    ensures WithoutUsage(WithoutUsage(w)) == WithoutUsage(w) && WithoutUsage(0) == 0
  {
    P.UsageBit(w);
  }

  predicate AllReferenced(list: seq<Handle>)
  {
    forall i :: 0 <= i < |list| && InCache(list[i].flags) ==> CountRefs(list[i].flags) > 0
  }

  lemma SecondRoundStep(before: seq<Handle>, list: seq<Handle>, after: seq<Handle>, head: nat, hand: nat)
    requires SecondRound(before, list, head, hand) && head < |list| && hand < |list| && |after| == |list|
    requires forall i :: 0 <= i < |list| && i != hand ==> after[i] == list[i]
    requires if list[hand].flags == IN_CACHE then Evicted(list[hand], after[hand])
             else after[hand] == list[hand].(flags := WithoutUsage(list[hand].flags))
    ensures var next := if hand + 1 >= |list| then 0 else hand + 1;
            if next == head then SecondRound(before, after, head, head) && AllReferenced(after)
            else SecondRound(before, after, head, next)
  {
    hide InCache, CountRefs, HasUsage, WithoutUsage;
    P.FreshWords();
    P.UsageBit(before[hand].flags);
    P.UsageBit(list[hand].flags);
    P.Unpack(list[hand].flags);
    Idempotent(before[hand].flags);
  }

  /** The usage is exact, the table and the in-cache bits agree, and the recycle
      bin holds exactly the unused handles, once each. */
  ghost predicate Consistent(s: State)
  {
    && P.AtRest(s)
    && (s.head < |s.handles| || s.head == 0)
    && (forall h :: 0 <= h < |s.handles| ==> multiset(s.recycle)[h] == if Dead(s.handles[h].flags) then 1 else 0)
  }

  lemma Room(s: State)
    requires Consistent(s) && s.usage != 0
    ensures s.head < |s.handles|
  {
  }

  lemma MovedHead(s: State, head: nat)
    requires Consistent(s) && head < |s.handles|
    ensures Consistent(s.(head := head))
  {
    assert P.Bin(s.(head := head)) == P.Bin(s);
    assert forall h: nat, key :: P.Listed(s, h, key) ==> P.Listed(s.(head := head), h, key);
  }

  lemma SpareConsistent(s: State, h: Hid)
    requires Consistent(s) && h < |s.handles|
    ensures Consistent(SetFlags(s, h, WithoutUsage(s.handles[h].flags)))
  {
    hide InCache, CountRefs, HasUsage, WithoutUsage;
    var s' := SetFlags(s, h, WithoutUsage(s.handles[h].flags));
    P.UsageBit(s.handles[h].flags);
    assert P.Bin(s) == P.Bin(s');
    P.TotalSame(s.handles, s'.handles, P.Bin(s), P.Bin(s'));
    forall key | key in s'.table ensures P.Listed(s', s'.table[key], key) {
      assert P.Listed(s, s.table[key], key);
    }
  }

  lemma EvictConsistent(s: State, h: Hid)
    requires Consistent(s) && h < |s.handles| && s.handles[h].flags == IN_CACHE
    ensures s.handles[h].key.Some?
    ensures Consistent(Recycle(SetFlags(s.(table := s.table - {s.handles[h].key.value}), h, 0), h))
  {
    hide InCache, CountRefs, HasUsage;
    P.FreshWords();
    assert s.handles[h].key.Some?;
    var s' := Recycle(SetFlags(s.(table := s.table - {s.handles[h].key.value}), h, 0), h);
    assert multiset(s'.recycle) == multiset(s.recycle) + multiset{h};
    assert h !in multiset(s.recycle);
    assert h !in s.recycle;
    assert P.Bin(s') == P.Bin(s) + {h};
    P.TotalExclude(s.handles, P.Bin(s), h);
    P.TotalSame(s.handles, s'.handles, P.Bin(s'), P.Bin(s'));
    forall key | key in s'.table ensures P.Listed(s', s'.table[key], key) {
      assert P.Listed(s, s.table[key], key);
    }
  }

  /** One shard of the cache, between operations. */
  class ClockShard {
    var list: seq<Handle>
    var head: nat
    var recycle: seq<Hid>
    var table: map<Key, Hid>
    var usage: int
    var capacity: nat

    ghost function View(): State
      reads this
    {
      State(list, head, recycle, table, usage, capacity, false, None, map[])
    }

    ghost predicate Valid()
      reads this
    {
      Consistent(View())
    }

    /** TryEvict */
    method TryEvict(h: Hid) returns (evicted: bool)
      requires Valid() && h < |list|
      modifies this`list, this`recycle, this`table, this`usage
      ensures Valid() && |list| == old(|list|)
      ensures evicted <==> old(list)[h].flags == IN_CACHE
      ensures forall i :: 0 <= i < |list| && i != h ==> list[i] == old(list)[i]
      ensures if evicted then Evicted(old(list)[h], list[h])
              else list[h] == old(list)[h].(flags := WithoutUsage(old(list)[h].flags))
      ensures evicted ==> recycle == old(recycle) + [h]
      ensures !evicted ==> recycle == old(recycle) && table == old(table) && usage == old(usage)
    {
      hide InCache, CountRefs, HasUsage, WithoutUsage, Consistent;
      P.FreshWords();
      ghost var before := View();
      if list[h].flags == IN_CACHE {
        EvictConsistent(before, h);
        table := table - {list[h].key.value};
        usage := usage - list[h].charge;
        recycle := recycle + [h];
        list := list[h := list[h].(flags := 0, key := None, recycled := list[h].recycled + 1)];
        evicted := true;
        assert View() == Recycle(SetFlags(before.(table := table), h, 0), h);
      } else {
        SpareConsistent(before, h);
        list := list[h := list[h].(flags := WithoutUsage(list[h].flags))];
        evicted := false;
      }
    }

    /** EvictFromCache: makes room for `charge`. `tries` counts the handles tried. */
    method EvictFromCache(charge: nat) returns (ok: bool, ghost tries: nat)
      requires Valid()
      modifies this`list, this`recycle, this`table, this`usage, this`head
      ensures Valid() && |list| == |old(list)|
      // it ends within two rounds
      ensures tries <= 2 * |list|
      // success is room, failure is that only referenced handles are left
      ensures ok ==> usage + charge <= capacity
      ensures !ok ==> head == old(head)
      ensures !ok && old(usage) != 0 ==> AllReferenced(list)
      ensures old(usage) == 0 ==> (ok <==> charge <= capacity)
      // a handle is evicted or keeps everything but its usage bit
      ensures forall i :: 0 <= i < |list| ==> Survives(old(list)[i], list[i]) || Evicted(old(list)[i], list[i])
      // a used handle is only evicted after all unused ones
      ensures (exists j :: 0 <= j < |list| && old(list)[j].flags != IN_CACHE && Evicted(old(list)[j], list[j])) ==>
                forall i :: 0 <= i < |list| && old(list)[i].flags == IN_CACHE ==> Evicted(old(list)[i], list[i])
      // and nothing is evicted for an entry that already fits
      ensures old(usage) == 0 || old(usage) + charge <= capacity ==> list == old(list)
    {
      hide InCache, CountRefs, HasUsage, WithoutUsage, Consistent;
      tries := 0;
      if usage == 0 {
        return charge <= capacity, 0;
      }
      Room(View());
      ghost var before := list;
      var newHead: nat, second: bool := head, false;
      while usage + charge > capacity
        invariant Valid() && |list| == |before| && head == old(head) && newHead < |list|
        invariant tries + StepsLeft(|list|, head, newHead, second) == 2 * |list|
        invariant if second then SecondRound(before, list, head, newHead) else FirstRound(before, list, head, newHead)
        invariant tries == 0 ==> list == before && usage == old(usage)
        invariant tries > 0 ==> old(usage) + charge > capacity
        decreases StepsLeft(|list|, head, newHead, second)
      {
        ghost var list0 := list;
        var evicted := TryEvict(newHead);
        tries := tries + 1;
        if second {
          SecondRoundStep(before, list0, list, head, newHead);
        } else {
          FirstRoundStep(before, list0, list, head, newHead);
        }
        newHead := if newHead + 1 >= |list| then 0 else newHead + 1;
        if newHead == head {
          if second {
            return false, tries;
          }
          second := true;
        }
      }
      MovedHead(View(), newHead);
      head := newHead;
      ok := true;
    }
  }

  // ----- the shard between operations

  lemma QuietBin(s: State)
    requires P.Inv(s) && forall a :: a in s.pc ==> s.pc[a].Done? || s.pc[a].Holding?
    ensures s.head < |s.handles| || s.head == 0
    ensures forall h :: 0 <= h < |s.handles| ==> multiset(s.recycle)[h] == if Dead(s.handles[h].flags) then 1 else 0
  {
    hide InCache, CountRefs, P.TableOk;
    forall h | 0 <= h < |s.handles|
      ensures multiset(s.recycle)[h] == if Dead(s.handles[h].flags) then 1 else 0
    {
      assert P.Balanced(s, h);
      assert Where(s.pc, P.Owns(h)) == {};
    }
  }

  /** Every interleaving that leaves no operation in flight leaves such a shard,
      whatever references the clients still hold. */
  lemma QuietIsConsistent(actions: seq<Action>)
    requires Run(actions).Some? && Run(actions).value.mutex == None
    requires forall a :: a in Run(actions).value.pc ==>
               Run(actions).value.pc[a].Done? || Run(actions).value.pc[a].Holding?
    ensures Consistent(Run(actions).value)
  {
    hide Run, P.Inv, InCache, CountRefs;
    P.RunKeeps(actions);
    P.FreeFacts(Run(actions).value);
    QuietBin(Run(actions).value);
  }
}
