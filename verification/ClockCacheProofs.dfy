/** Safety of the CLOCK cache shard over all interleavings. */
module ClockCacheProofs {
  import opened Records
  import opened Counting
  import opened ClockCache

  // ----- the flag word

  /** A word is its reference count, usage bit and in-cache bit, and nothing else. */
  lemma Word(refs: nat, usage: nat, cached: nat)
    requires usage < 2 && cached < 2
    ensures var w := ONE_REF * refs + USAGE * usage + IN_CACHE * cached;
            (InCache(w) <==> cached == 1) && (HasUsage(w) <==> usage == 1) && CountRefs(w) == refs
  {
  }

  lemma Unpack(w: nat)
    ensures w == ONE_REF * CountRefs(w) + USAGE * (if HasUsage(w) then 1 else 0)
                 + IN_CACHE * (if InCache(w) then 1 else 0)
  {
    assert w / 2 == 2 * (w / 4) + w / 2 % 2;
  }

  /** The atomic operations on the packed word touch one field each. */
  lemma AddRef(w: nat)
    ensures InCache(w + ONE_REF) == InCache(w) && HasUsage(w + ONE_REF) == HasUsage(w)
    ensures CountRefs(w + ONE_REF) == CountRefs(w) + 1
  {
    hide InCache, HasUsage, CountRefs;
    Unpack(w);
    Word(CountRefs(w) + 1, if HasUsage(w) then 1 else 0, if InCache(w) then 1 else 0);
  }

  lemma SubRef(w: nat)
    requires CountRefs(w) > 0
    ensures w >= ONE_REF && CountRefs(w - ONE_REF) == CountRefs(w) - 1
    ensures InCache(w - ONE_REF) == InCache(w) && HasUsage(w - ONE_REF) == HasUsage(w)
  {
    hide InCache, HasUsage, CountRefs;
    Unpack(w);
    AddRef(w - ONE_REF);
  }

  lemma UsageBit(w: nat)
    ensures HasUsage(WithUsage(w)) && InCache(WithUsage(w)) == InCache(w) && CountRefs(WithUsage(w)) == CountRefs(w)
    ensures !HasUsage(WithoutUsage(w)) && InCache(WithoutUsage(w)) == InCache(w)
    ensures CountRefs(WithoutUsage(w)) == CountRefs(w)
  {
    hide InCache, HasUsage, CountRefs;
    Unpack(w);
    Word(CountRefs(w), 1, if InCache(w) then 1 else 0);
    Word(CountRefs(w), 0, if InCache(w) then 1 else 0);
  }

  lemma InCacheBit(w: nat)
    ensures !InCache(WithoutInCache(w)) && HasUsage(WithoutInCache(w)) == HasUsage(w)
    ensures CountRefs(WithoutInCache(w)) == CountRefs(w)
  {
    hide InCache, HasUsage, CountRefs;
    Unpack(w);
    Word(CountRefs(w), if HasUsage(w) then 1 else 0, 0);
  }

  lemma FreshWords()
    ensures InCache(IN_CACHE) && CountRefs(IN_CACHE) == 0 && Dead(0)
    ensures InCache(IN_CACHE + ONE_REF) && CountRefs(IN_CACHE + ONE_REF) == 1
  {
  }

  // ----- who refers to a handle, and who owes its recycling

  predicate RefersAt(pc: Pc, h: Hid)
  {
    match pc
    case Comparing(_, x) => x == h
    case Holding(_, x) => x == h
    case Touching(x) => x == h
    case Dropping(x) => x == h
    case UnlockingWith(_, x) => x == h
    case Probing(op, x) => x == h && op.Insert? && op.hold
    case Unsetting(op, x, _) => x == h && op.Insert? && op.hold
    case RecyclingOld(op, x, _) => x == h && op.Insert? && op.hold
    case Publishing(op, x) => x == h && op.Insert? && op.hold
    case _ => false
  }

  /** The agent has made the handle unused and will recycle it, or has taken it
      out of the recycle bin and will fill it. */
  predicate OwnsAt(pc: Pc, h: Hid)
  {
    match pc
    case WaitingLast(x) => x == h
    case RecyclingLast(x) => x == h
    case Evicting(_, w) => w.newHead == h
    case RecyclingOld(_, _, x) => x == h
    case ErasingRecycle(x) => x == h
    case RecyclingAt(x) => x == h
    case Storing(_, x) => x == h
    case _ => false
  }

  function Refers(h: Hid): Pc -> bool { pc => RefersAt(pc, h) }
  function Owns(h: Hid): Pc -> bool { pc => OwnsAt(pc, h) }

  /** The reference count is exact, and an unused handle is in the recycle bin
      once or owned by exactly one agent; a used one is in neither place. */
  ghost predicate Balanced(s: State, h: Hid)
  {
    h < |s.handles| ==>
      && CountRefs(s.handles[h].flags) == Count(s.pc, Refers(h))
      && multiset(s.recycle)[h] + Count(s.pc, Owns(h)) == One(Dead(s.handles[h].flags))
  }

  // ----- the total charge

  function Total(handles: seq<Handle>, excluded: set<Hid>): nat
  {
    if handles == [] then 0
    else
      var n := |handles| - 1;
      Total(handles[..n], excluded) + (if n in excluded then 0 else handles[n].charge)
  }

  lemma {:induction false} TotalSame(a: seq<Handle>, b: seq<Handle>, ea: set<Hid>, eb: set<Hid>)
    requires |a| == |b|
    requires forall i :: 0 <= i < |a| ==> (i in ea <==> i in eb) && (i !in ea ==> a[i].charge == b[i].charge)
    ensures Total(a, ea) == Total(b, eb)
  {
    if a != [] {
      TotalSame(a[..|a| - 1], b[..|b| - 1], ea, eb);
    }
  }

  lemma {:induction false} TotalExclude(a: seq<Handle>, e: set<Hid>, h: Hid)
    requires h < |a| && h !in e
    ensures Total(a, e) == Total(a, e + {h}) + a[h].charge
  {
    var n := |a| - 1;
    if h == n {
      TotalSame(a[..n], a[..n], e, e + {h});
    } else {
      TotalExclude(a[..n], e, h);
    }
  }

  // ----- what the mutex holder may leave unfinished

  function HolderPc(s: State): Pc
  {
    if s.mutex.Some? && s.mutex.value in s.pc then s.pc[s.mutex.value] else Done
  }

  predicate HoldsMutex(pc: Pc)
  {
    match pc
    case Done => false
    case Finding(_) => false
    case Loading(_, _) => false
    case Swapping(_, _, _) => false
    case Comparing(_, _) => false
    case Holding(_, _) => false
    case Touching(_) => false
    case Dropping(_) => false
    case WaitingLast(_) => false
    case Waiting(_) => false
    case _ => true
  }

  /** The handle being inserted, not yet added to `usage`. */
  function Unadded(pc: Pc): set<Hid>
  {
    match pc
    case Storing(_, h) => {h}
    case Probing(_, h) => {h}
    case Unsetting(_, h, _) => {h}
    case RecyclingOld(_, h, _) => {h}
    case Publishing(_, h) => {h}
    case _ => {}
  }

  /** In cache, but not in the table. */
  predicate MissingAt(pc: Pc, h: Hid)
  {
    match pc
    case Probing(_, x) => x == h
    case Unsetting(_, x, e) => x == h || e == h
    case RecyclingOld(_, x, _) => x == h
    case Publishing(_, x) => x == h
    case ErasingUnset(x) => x == h
    case UnsettingAt(i) => i <= h
    case RecyclingAt(i) => i < h
    case _ => false
  }

  predicate StaleAt(pc: Pc, h: Hid)
  {
    pc.Evicting? && pc.sweep.newHead == h
  }

  predicate EntryOk(s: State, key: Key)
    requires key in s.table
  {
    var h := s.table[key];
    h < |s.handles| && s.handles[h].key == Some(key) && (InCache(s.handles[h].flags) || StaleAt(HolderPc(s), h))
  }

  predicate ListedOk(s: State, h: Hid)
    requires h < |s.handles|
  {
    InCache(s.handles[h].flags) ==>
      && s.handles[h].key.Some?
      && (MissingAt(HolderPc(s), h) || (s.handles[h].key.value in s.table && s.table[s.handles[h].key.value] == h))
  }

  ghost predicate TableOk(s: State)
  {
    && (forall key :: key in s.table ==> EntryOk(s, key))
    && (forall h :: 0 <= h < |s.handles| ==> ListedOk(s, h))
  }

  ghost function Bin(s: State): set<Hid>
  {
    set h | h in s.recycle
  }

  ghost function Excluded(s: State): set<Hid>
  {
    Bin(s) + Unadded(HolderPc(s))
  }

  ghost predicate UsageOk(s: State)
  {
    && s.usage == Total(s.handles, Excluded(s))
    && (forall h :: h in s.recycle ==> h < |s.handles|)
    && (forall h :: 0 <= h < |s.handles| ==>
          s.handles[h].inserted == s.handles[h].recycled + (if h in s.recycle then 0 else 1))
    && (s.head < |s.handles| || s.head == 0)
  }

  /** The handle carries the entry being inserted, which fits unless the caller holds it. */
  predicate Filled(s: State, op: Op, h: Hid)
  {
    && op.Insert? && h < |s.handles| && s.handles[h].key == Some(op.key) && s.handles[h].charge == op.charge
    && (op.hold || s.usage + op.charge <= s.capacity)
  }

  predicate SweepOk(s: State, op: Op, w: Sweep)
  {
    (op.Insert? || op.SetCapacity?) && w.newHead < |s.handles| && w.usage == s.usage
  }

  predicate HolderOk(s: State)
  {
    match HolderPc(s)
    case Entering(_) => true
    case Sweeping(op, w) => SweepOk(s, op, w)
    case Sparing(op, w) => SweepOk(s, op, w)
    case Evicting(op, w) =>
      && SweepOk(s, op, w)
      && var key := s.handles[w.newHead].key;
         key.Some? && key.value in s.table && s.table[key.value] == w.newHead
    case Placing(op, success) => op.Insert? && (success ==> s.usage + op.charge <= s.capacity)
    case Storing(op, h) => Filled(s, op, h)
    case Probing(op, h) =>
      Filled(s, op, h) && InCache(s.handles[h].flags) && (op.key in s.table ==> s.table[op.key] != h)
    case Unsetting(op, h, e) =>
      Filled(s, op, h) && InCache(s.handles[h].flags) && op.key !in s.table
      && e < |s.handles| && e != h && s.handles[e].key == Some(op.key)
    case RecyclingOld(op, h, e) =>
      Filled(s, op, h) && InCache(s.handles[h].flags) && op.key !in s.table && e < |s.handles| && e != h
    case Publishing(op, h) => Filled(s, op, h) && InCache(s.handles[h].flags) && op.key !in s.table
    case ErasingUnset(h) =>
      h < |s.handles| && s.handles[h].key.Some? && s.handles[h].key.value !in s.table
    case ErasingRecycle(h) => h < |s.handles|
    case RecyclingLast(h) => h < |s.handles|
    case UnsettingAt(_) => s.table == map[]
    case RecyclingAt(i) => s.table == map[] && i < |s.handles|
    case _ => true
  }

  /** What holds of an agent whoever has the mutex. */
  predicate AgentOk(s: State, a: Agent)
    requires a in s.pc
  {
    var pc := s.pc[a];
    && (HoldsMutex(pc) <==> s.mutex == Some(a))
    && (match pc
        case Loading(_, h) => h < |s.handles|
        case Swapping(_, h, w) => h < |s.handles| && InCache(w)
        case Comparing(_, h) => h < |s.handles| && s.handles[h].key.Some?
        case Holding(key, h) => h < |s.handles| && s.handles[h].key == Some(key)
        case Touching(h) => h < |s.handles|
        case Dropping(h) => h < |s.handles|
        case WaitingLast(h) => h < |s.handles|
        case UnlockingWith(key, h) => h < |s.handles| && s.handles[h].key == Some(key)
        case _ => true)
  }

  ghost predicate Inv(s: State)
  {
    && (forall h :: Balanced(s, h))
    && (forall a :: a in s.pc ==> AgentOk(s, a))
    && (s.mutex.Some? ==> s.mutex.value in s.pc)
    && HolderOk(s) && TableOk(s) && UsageOk(s)
  }

  ghost predicate Keeps(o: Outcome)
  {
    !o.Fails? && (o.Ok? ==> Inv(o.s))
  }

  // ----- counters follow the agents

  function RefersN(s: State, a: Agent, h: Hid): nat
  {
    One(a in s.pc && RefersAt(s.pc[a], h))
  }

  function OwnsN(s: State, a: Agent, h: Hid): nat
  {
    One(a in s.pc && OwnsAt(s.pc[a], h))
  }

  predicate OneAgent(s: State, s': State, a: Agent)
  {
    a in s'.pc && s'.pc == s.pc[a := s'.pc[a]] && |s.handles| <= |s'.handles|
  }

  ghost predicate Settled(s: State, s': State, a: Agent, h: Hid)
    requires |s.handles| <= |s'.handles|
  {
    h < |s.handles| ==>
      var w, w' := s.handles[h].flags, s'.handles[h].flags;
      && CountRefs(w') + RefersN(s, a, h) == CountRefs(w) + RefersN(s', a, h)
      && multiset(s'.recycle)[h] + OwnsN(s', a, h) + One(Dead(w))
         == multiset(s.recycle)[h] + OwnsN(s, a, h) + One(Dead(w'))
  }

  lemma SettledBalanced(s: State, s': State, a: Agent, h: Hid)
    requires OneAgent(s, s', a) && h < |s.handles| && Settled(s, s', a, h) && Balanced(s, h)
    ensures Balanced(s', h)
  {
    hide Count;
    CountPut(s.pc, a, s'.pc[a], Refers(h));
    CountPut(s.pc, a, s'.pc[a], Owns(h));
  }

  /** An agent's claim on a handle shows in the word and in the recycle bin. */
  lemma Claims(s: State, a: Agent, h: Hid)
    requires Inv(s) && a in s.pc && h < |s.handles|
    ensures RefersAt(s.pc[a], h) ==> CountRefs(s.handles[h].flags) > 0 && h !in s.recycle
    ensures OwnsAt(s.pc[a], h) ==> Dead(s.handles[h].flags) && h !in s.recycle
    ensures h in s.recycle ==> Dead(s.handles[h].flags) && multiset(s.recycle)[h] == 1
  {
    hide Count, InCache, CountRefs;
    assert Balanced(s, h);
    HadCounted(s.pc, a, Refers(h));
    HadCounted(s.pc, a, Owns(h));
    assert h in s.recycle <==> h in multiset(s.recycle);
  }

  // ----- steps of an agent without the mutex

  /** Only reference counts and usage bits change. */
  predicate OnlyWords(s: State, s': State)
  {
    && |s'.handles| == |s.handles|
    && (forall h :: 0 <= h < |s.handles| ==>
          s'.handles[h] == s.handles[h].(flags := s'.handles[h].flags)
          && InCache(s'.handles[h].flags) == InCache(s.handles[h].flags))
    && s'.table == s.table && s'.recycle == s.recycle && s'.usage == s.usage && s'.head == s.head
    && s'.mutex == s.mutex && s'.capacity == s.capacity
  }

  lemma FreeStep(s: State, s': State, a: Agent)
    requires Inv(s) && OneAgent(s, s', a) && OnlyWords(s, s')
    requires s.mutex != Some(a) && AgentOk(s', a)
    requires forall h :: Settled(s, s', a, h)
    ensures Inv(s')
  {
    hide Count, InCache, CountRefs, Settled;
    forall h: nat ensures Balanced(s', h) {
      if h < |s.handles| {
        assert Settled(s, s', a, h);
        SettledBalanced(s, s', a, h);
      }
    }
    forall b | b in s'.pc ensures AgentOk(s', b) {
      assert b != a ==> AgentOk(s, b);
    }
    assert HolderPc(s') == HolderPc(s);
    forall key | key in s'.table ensures EntryOk(s', key) {
      assert EntryOk(s, key);
    }
    forall h | 0 <= h < |s'.handles| ensures ListedOk(s', h) {
      assert ListedOk(s, h);
    }
    TotalSame(s.handles, s'.handles, Excluded(s), Excluded(s'));
  }

  // ----- steps of the mutex holder

  /** A key only disappears from, or appears in, a handle nobody uses. */
  ghost predicate KeysKept(s: State, s': State)
    requires |s.handles| <= |s'.handles|
  {
    forall h :: 0 <= h < |s.handles| && s'.handles[h].key != s.handles[h].key ==> Dead(s.handles[h].flags)
  }

  lemma OthersUnaffected(s: State, s': State, a: Agent, b: Agent)
    requires Inv(s) && OneAgent(s, s', a) && KeysKept(s, s') && s'.mutex == s.mutex == Some(a)
    requires b in s.pc && b != a
    ensures AgentOk(s', b)
  {
    hide Count, InCache, CountRefs, TableOk, UsageOk, HolderOk;
    assert AgentOk(s, b);
    match s.pc[b]
    case Comparing(_, h) => Claims(s, b, h);
    case Holding(_, h) => Claims(s, b, h);
    case UnlockingWith(_, h) => Claims(s, b, h);
    case _ =>
  }

  lemma HolderStep(s: State, s': State, a: Agent)
    requires Inv(s) && OneAgent(s, s', a) && KeysKept(s, s')
    requires s.mutex == Some(a) && s'.mutex == s.mutex && HoldsMutex(s'.pc[a])
    requires forall h :: Settled(s, s', a, h)
    requires forall h :: |s.handles| <= h < |s'.handles| ==> Balanced(s', h)
    requires HolderOk(s') && TableOk(s') && UsageOk(s') && AgentOk(s', a)
    ensures Inv(s')
  {
    hide Count, InCache, CountRefs, Settled, TableOk, UsageOk, HolderOk;
    forall h: nat ensures Balanced(s', h) {
      if h < |s.handles| {
        assert Settled(s, s', a, h);
        SettledBalanced(s, s', a, h);
      }
    }
    forall b | b in s'.pc ensures AgentOk(s', b) {
      if b != a {
        OthersUnaffected(s, s', a, b);
      }
    }
  }

  // ----- Lookup, Ref, Unref

  lemma KeepsFind(s: State, a: Agent, key: Key)
    requires Inv(s) && a in s.pc && s.pc[a] == Finding(key)
    ensures Keeps(StepFind(s, a, key))
  {
    hide Count, InCache, CountRefs;
    assert AgentOk(s, a);
    assert key in s.table ==> EntryOk(s, key);
    FreeStep(s, StepFind(s, a, key).s, a);
  }

  lemma KeepsLoad(s: State, a: Agent, key: Key, h: Hid)
    requires Inv(s) && a in s.pc && s.pc[a] == Loading(key, h)
    ensures Keeps(StepLoad(s, a, key, h))
  {
    hide Count, InCache, CountRefs, TableOk, UsageOk, HolderOk;
    assert AgentOk(s, a);
    FreeStep(s, StepLoad(s, a, key, h).s, a);
  }

  lemma KeepsSwap(s: State, a: Agent, key: Key, h: Hid, w: nat)
    requires Inv(s) && a in s.pc && s.pc[a] == Swapping(key, h, w)
    ensures Keeps(StepSwap(s, a, key, h, w))
  {
    hide Count, InCache, CountRefs, UsageOk, HolderOk;
    assert AgentOk(s, a) && ListedOk(s, h);
    AddRef(w);
    FreeStep(s, StepSwap(s, a, key, h, w).s, a);
  }

  lemma KeepsCompare(s: State, a: Agent, key: Key, h: Hid)
    requires Inv(s) && a in s.pc && s.pc[a] == Comparing(key, h)
    ensures Keeps(StepCompare(s, a, key, h))
  {
    hide Count, InCache, CountRefs, TableOk, UsageOk, HolderOk;
    assert AgentOk(s, a);
    FreeStep(s, StepCompare(s, a, key, h).s, a);
  }

  lemma KeepsTouch(s: State, a: Agent, h: Hid)
    requires Inv(s) && a in s.pc && s.pc[a] == Touching(h)
    ensures Keeps(StepTouch(s, a, h))
  {
    hide Count, InCache, CountRefs, HasUsage, WithUsage, TableOk, UsageOk, HolderOk;
    assert AgentOk(s, a);
    UsageBit(s.handles[h].flags);
    FreeStep(s, StepTouch(s, a, h).s, a);
  }

  /** A reference that is dropped was counted; the last one leaves an owner. */
  lemma KeepsDrop(s: State, a: Agent, h: Hid)
    requires Inv(s) && a in s.pc && s.pc[a] == Dropping(h)
    ensures Keeps(StepDrop(s, a, h))
  {
    hide Count, InCache, CountRefs, TableOk, UsageOk, HolderOk;
    assert AgentOk(s, a);
    Claims(s, a, h);
    SubRef(s.handles[h].flags);
    FreeStep(s, StepDrop(s, a, h).s, a);
  }

  lemma KeepsDuplicate(s: State, a: Agent, b: Agent)
    requires Inv(s)
    ensures Keeps(DoDuplicate(s, a, b))
  {
    hide Count, InCache, CountRefs, TableOk, UsageOk, HolderOk;
    if a in s.pc && s.pc[a].Holding? && b !in s.pc {
      assert AgentOk(s, a);
      AddRef(s.handles[s.pc[a].h].flags);
      if DoDuplicate(s, a, b).Ok? {
        FreeStep(s, DoDuplicate(s, a, b).s, b);
      }
    }
  }

  lemma KeepsStart(s: State, a: Agent, pc: Pc)
    requires Inv(s)
    requires if a in s.pc then s.pc[a].Holding? && pc == Touching(s.pc[a].h) else pc.Finding? || pc.Waiting?
    ensures Inv(Go(s, a, pc))
  {
    hide Count, InCache, CountRefs, TableOk, UsageOk, HolderOk;
    assert a in s.pc ==> AgentOk(s, a);
    FreeStep(s, Go(s, a, pc), a);
  }

  // ----- taking and giving back the mutex

  lemma MutexMoves(s: State, s': State, a: Agent)
    requires Inv(s) && OneAgent(s, s', a) && a in s.pc
    requires s' == s.(pc := s'.pc, mutex := s'.mutex)
    requires (s.mutex == None && s'.mutex == Some(a)) || (s.mutex == Some(a) && s'.mutex == None)
    requires AgentOk(s', a) && HolderOk(s')
    requires forall h :: RefersN(s', a, h) == RefersN(s, a, h) && OwnsN(s', a, h) == OwnsN(s, a, h)
    requires forall h :: (MissingAt(HolderPc(s), h) <==> MissingAt(HolderPc(s'), h))
    requires !HolderPc(s).Evicting? && !HolderPc(s').Evicting? && Unadded(HolderPc(s)) == Unadded(HolderPc(s')) == {}
    ensures Inv(s')
  {
    hide Count, InCache, CountRefs, HolderOk;
    forall h: nat ensures Balanced(s', h) {
      if h < |s.handles| {
        SettledBalanced(s, s', a, h);
      }
    }
    forall b | b in s'.pc ensures AgentOk(s', b) {
      assert AgentOk(s, b);
    }
    forall key | key in s'.table ensures EntryOk(s', key) {
      assert EntryOk(s, key);
    }
    forall h | 0 <= h < |s'.handles| ensures ListedOk(s', h) {
      assert ListedOk(s, h);
    }
  }

  lemma KeepsLock(s: State, a: Agent, next: Pc)
    requires Inv(s) && a in s.pc
    requires s.pc[a].WaitingLast? || s.pc[a].Waiting?
    requires next == if s.pc[a].WaitingLast? then RecyclingLast(s.pc[a].h) else Entering(s.pc[a].op)
    ensures Keeps(StepLock(s, a, next))
  {
    hide Count, InCache, CountRefs;
    var o := StepLock(s, a, next);
    if o.Ok? {
      MutexMoves(s, o.s, a);
    }
  }

  lemma KeepsUnlock(s: State, a: Agent, next: Pc)
    requires Inv(s) && a in s.pc
    requires s.pc[a] == Unlocking || s.pc[a].UnlockingWith?
    requires next == if s.pc[a] == Unlocking then Done else Holding(s.pc[a].key, s.pc[a].h)
    ensures Keeps(StepUnlock(s, a, next))
  {
    hide Count, InCache, CountRefs;
    assert AgentOk(s, a);
    MutexMoves(s, StepUnlock(s, a, next).s, a);
  }

  // ----- eviction

  lemma UsageKept(s: State, s': State)
    requires UsageOk(s) && |s'.handles| == |s.handles|
    requires forall h :: 0 <= h < |s.handles| ==> s'.handles[h] == s.handles[h].(flags := s'.handles[h].flags)
    requires s'.recycle == s.recycle && s'.usage == s.usage && (s'.head < |s.handles| || s'.head == s.head)
    requires Unadded(HolderPc(s')) == Unadded(HolderPc(s))
    ensures UsageOk(s')
    ensures s.usage != 0 ==> s.head < |s.handles|
  {
    TotalSame(s.handles, s'.handles, Excluded(s), Excluded(s'));
  }

  lemma HolderFacts(s: State, a: Agent)
    requires Inv(s) && a in s.pc && HoldsMutex(s.pc[a])
    ensures s.mutex == Some(a) && HolderOk(s)
  {
    assert AgentOk(s, a);
  }

  lemma KeepsEnterErase(s: State, a: Agent, op: Op)
    requires Inv(s) && a in s.pc && s.pc[a] == Entering(op) && op.Erase?
    ensures Keeps(StepEnter(s, a, op))
  {
    hide Count, Balanced, InCache, CountRefs, UsageOk;
    HolderFacts(s, a);
    var s' := StepEnter(s, a, op).s;
    UsageKept(s, s');
    forall key | key in s'.table ensures EntryOk(s', key) {
      assert EntryOk(s, key);
    }
    forall h | 0 <= h < |s'.handles| ensures ListedOk(s', h) {
      assert ListedOk(s, h);
    }
    assert op.key in s.table ==> EntryOk(s, op.key);
    HolderStep(s, s', a);
  }

  lemma KeepsEnterUnRef(s: State, a: Agent, op: Op)
    requires Inv(s) && a in s.pc && s.pc[a] == Entering(op) && op.EraseUnRef?
    ensures Keeps(StepEnter(s, a, op))
  {
    hide Count, Balanced, InCache, CountRefs, UsageOk;
    HolderFacts(s, a);
    var s' := StepEnter(s, a, op).s;
    UsageKept(s, s');
    forall h | 0 <= h < |s'.handles| ensures ListedOk(s', h) {
      assert ListedOk(s, h);
    }
    HolderStep(s, s', a);
  }

  lemma KeepsEnterSweep(s: State, a: Agent, op: Op)
    requires Inv(s) && a in s.pc && s.pc[a] == Entering(op) && (op.Insert? || op.SetCapacity?)
    ensures Keeps(StepEnter(s, a, op))
  {
    hide Count, Balanced, InCache, CountRefs, UsageOk;
    assert AgentOk(s, a);
    var s' := StepEnter(s, a, op).s;
    UsageKept(s, s');
    forall key | key in s'.table ensures EntryOk(s', key) {
      assert EntryOk(s, key);
    }
    forall h | 0 <= h < |s'.handles| ensures ListedOk(s', h) {
      assert ListedOk(s, h);
    }
    HolderStep(s, s', a);
  }

  lemma KeepsSweepOn(s: State, a: Agent, op: Op, w: Sweep)
    requires Inv(s) && a in s.pc && s.pc[a] == Sweeping(op, w)
    requires w.usage + Charge(op) > s.capacity ==> w.newHead < |s.handles| && s.handles[w.newHead].flags != IN_CACHE
    ensures Keeps(StepSweep(s, a, op, w))
  {
    hide Count, Balanced, InCache, CountRefs, UsageOk;
    HolderFacts(s, a);
    var s' := StepSweep(s, a, op, w).s;
    forall key | key in s'.table ensures EntryOk(s', key) {
      assert EntryOk(s, key);
    }
    forall h | 0 <= h < |s'.handles| ensures ListedOk(s', h) {
      assert ListedOk(s, h);
    }
    UsageKept(s, s');
    HolderStep(s, s', a);
  }

  lemma KeepsTryEvict(s: State, a: Agent, op: Op, w: Sweep)
    requires Inv(s) && a in s.pc && s.pc[a] == Sweeping(op, w) && w.usage + Charge(op) > s.capacity
    requires w.newHead < |s.handles| && s.handles[w.newHead].flags == IN_CACHE
    ensures Keeps(StepSweep(s, a, op, w))
  {
    hide Count, Balanced, InCache, CountRefs, UsageOk;
    HolderFacts(s, a);
    FreshWords();
    var s' := StepSweep(s, a, op, w).s;
    forall key | key in s'.table ensures EntryOk(s', key) {
      assert EntryOk(s, key);
    }
    assert ListedOk(s, w.newHead);
    forall h | 0 <= h < |s'.handles| ensures ListedOk(s', h) {
      assert ListedOk(s, h);
    }
    UsageKept(s, s');
    HolderStep(s, s', a);
  }

  lemma KeepsSweep(s: State, a: Agent, op: Op, w: Sweep)
    requires Inv(s) && a in s.pc && s.pc[a] == Sweeping(op, w)
    ensures Keeps(StepSweep(s, a, op, w))
  {
    hide Inv;
    HolderFacts(s, a);
    if w.usage + Charge(op) > s.capacity && s.handles[w.newHead].flags == IN_CACHE {
      KeepsTryEvict(s, a, op, w);
    } else {
      KeepsSweepOn(s, a, op, w);
    }
  }

  lemma KeepsSpare(s: State, a: Agent, op: Op, w: Sweep)
    requires Inv(s) && a in s.pc && s.pc[a] == Sparing(op, w)
    ensures Keeps(StepSpare(s, a, op, w))
  {
    hide Count, Balanced, InCache, CountRefs, UsageOk, WithoutUsage, HasUsage;
    assert AgentOk(s, a);
    UsageBit(s.handles[w.newHead].flags);
    var s' := StepSpare(s, a, op, w).s;
    forall key | key in s'.table ensures EntryOk(s', key) {
      assert EntryOk(s, key);
    }
    forall h | 0 <= h < |s'.handles| ensures ListedOk(s', h) {
      assert ListedOk(s, h);
    }
    UsageKept(s, s');
    HolderStep(s, s', a);
  }

  // ----- recycling

  /** The holder recycles a handle it owns; `table` is what is left of the table. */
  lemma RecycleStep(s: State, a: Agent, h: Hid, table: map<Key, Hid>, next: Pc)
    requires Inv(s) && s.mutex == Some(a) && a in s.pc && OwnsAt(s.pc[a], h) && h < |s.handles|
    requires HoldsMutex(next) && Unadded(next) == Unadded(s.pc[a]) && h !in Unadded(next)
    requires forall x :: RefersAt(next, x) == RefersAt(s.pc[a], x)
    requires forall x :: OwnsAt(next, x) <==> OwnsAt(s.pc[a], x) && x != h
    requires var s' := Go(Recycle(s.(table := table), h), a, next); HolderOk(s') && TableOk(s') && AgentOk(s', a)
    ensures CanRecycle(s, h) && Inv(Go(Recycle(s.(table := table), h), a, next))
  {
    hide Count, Balanced, InCache, CountRefs, HolderOk, TableOk, AgentOk;
    Claims(s, a, h);
    var s' := Go(Recycle(s.(table := table), h), a, next);
    assert multiset(s'.recycle) == multiset(s.recycle) + multiset{h};
    assert forall x :: x in s'.recycle <==> x in s.recycle || x == h;
    assert Excluded(s') == Excluded(s) + {h};
    TotalExclude(s.handles, Excluded(s), h);
    TotalSame(s.handles, s'.handles, Excluded(s'), Excluded(s'));
    HolderStep(s, s', a);
  }

  /** Recycling takes nothing out of the table. */
  lemma KeepsRecycle(s: State, a: Agent, h: Hid, next: Pc)
    requires Inv(s) && a in s.pc && h < |s.handles|
    requires match s.pc[a]
             case RecyclingLast(x) => x == h && next == Unlocking
             case RecyclingOld(op, x, e) => e == h && next == Publishing(op, x)
             case ErasingRecycle(x) => x == h && next == Unlocking
             case RecyclingAt(i) => i == h && next == UnsettingAt(i + 1)
             case _ => false
    ensures Keeps(StepRecycle(s, a, h, next))
  {
    hide Count, Balanced, InCache, CountRefs;
    assert AgentOk(s, a);
    Claims(s, a, h);
    var s' := Go(Recycle(s, h), a, next);
    assert s.(table := s.table) == s;
    forall key | key in s'.table ensures EntryOk(s', key) {
      assert EntryOk(s, key);
    }
    forall x | 0 <= x < |s'.handles| ensures ListedOk(s', x) {
      assert ListedOk(s, x);
    }
    RecycleStep(s, a, h, s.table, next);
  }

  lemma EvictedTable(s: State, a: Agent, op: Op, w: Sweep)
    requires Inv(s) && a in s.pc && s.pc[a] == Evicting(op, w)
    ensures StepEvict(s, a, op, w).Ok?
    ensures var s' := StepEvict(s, a, op, w).s; TableOk(s') && HolderOk(s') && AgentOk(s', a)
  {
    hide Count, Balanced, InCache, CountRefs, UsageOk;
    HolderFacts(s, a);
    Claims(s, a, w.newHead);
    var s' := StepEvict(s, a, op, w).s;
    forall key | key in s'.table ensures EntryOk(s', key) {
      assert EntryOk(s, key);
    }
    forall x | 0 <= x < |s'.handles| ensures ListedOk(s', x) {
      assert ListedOk(s, x);
    }
  }

  lemma KeepsEvict(s: State, a: Agent, op: Op, w: Sweep)
    requires Inv(s) && a in s.pc && s.pc[a] == Evicting(op, w)
    ensures Keeps(StepEvict(s, a, op, w))
  {
    hide Inv, TableOk, AgentOk, InCache, CountRefs;
    HolderFacts(s, a);
    EvictedTable(s, a, op, w);
    var s' := StepEvict(s, a, op, w).s;
    RecycleStep(s, a, w.newHead, s.table - {s.handles[w.newHead].key.value}, s'.pc[a]);
  }

  // ----- insertion

  lemma NobodyAt(s: State, a: Agent, op: Op, success: bool)
    requires Inv(s) && a in s.pc && s.pc[a] == Placing(op, success)
    ensures Count(s.pc, Refers(|s.handles|)) == 0 && Count(s.pc, Owns(|s.handles|)) == 0
  {
    hide InCache, CountRefs, TableOk;
    assert AgentOk(s, a);
    forall b | b in s.pc ensures !RefersAt(s.pc[b], |s.handles|) && !OwnsAt(s.pc[b], |s.handles|) {
      assert AgentOk(s, b);
    }
    assert Where(s.pc, Refers(|s.handles|)) == {};
    assert Where(s.pc, Owns(|s.handles|)) == {};
  }

  /** What StepPlace leaves behind when it takes handle `h`. */
  ghost predicate Placed(s: State, s': State, a: Agent, op: Op, h: Hid)
  {
    && a in s.pc && s.pc[a].Placing? && s.mutex == Some(a) && op.Insert?
    && s'.pc == s.pc[a := Storing(op, h)] && s'.mutex == s.mutex
    && s'.table == s.table && s'.usage == s.usage && s'.head == s.head && s'.capacity == s.capacity
    && (op.hold || s.usage + op.charge <= s.capacity)
    && h <= |s.handles| && |s'.handles| == (if h == |s.handles| then h + 1 else |s.handles|)
    && (forall x :: 0 <= x < |s.handles| && x != h ==> s'.handles[x] == s.handles[x])
    && (h < |s.handles| ==> Dead(s.handles[h].flags) && s'.handles[h].flags == s.handles[h].flags)
    && (h == |s.handles| ==> s'.handles[h].flags == 0)
    && s'.handles[h].key == Some(op.key) && s'.handles[h].charge == op.charge
  }

  lemma PlacedTable(s: State, s': State, a: Agent, op: Op, h: Hid)
    requires Inv(s) && Placed(s, s', a, op, h)
    ensures TableOk(s') && HolderOk(s') && AgentOk(s', a) && KeysKept(s, s')
  {
    hide Count, InCache, CountRefs, UsageOk, Balanced;
    assert AgentOk(s, a);
    FreshWords();
    forall key | key in s'.table ensures EntryOk(s', key) {
      assert EntryOk(s, key);
    }
    forall x | 0 <= x < |s'.handles| ensures ListedOk(s', x) {
      assert x < |s.handles| ==> ListedOk(s, x);
    }
  }

  lemma PlacedNewUsage(s: State, s': State, a: Agent, op: Op)
    requires Inv(s) && Placed(s, s', a, op, |s.handles|) && s.recycle == s'.recycle == []
    requires s'.handles[|s.handles|].inserted == 1 && s'.handles[|s.handles|].recycled == 0
    ensures UsageOk(s')
  {
    hide Count, InCache, CountRefs, Balanced, TableOk;
    var n := |s.handles|;
    assert s'.handles[..n] == s.handles;
    TotalSame(s.handles, s'.handles[..n], Excluded(s), Excluded(s'));
  }

  lemma KeepsPlaceNew(s: State, a: Agent, op: Op, success: bool)
    requires Inv(s) && a in s.pc && s.pc[a] == Placing(op, success)
    requires op.Insert? && (success || (!s.strict && op.hold)) && s.recycle == []
    requires op.hold || s.usage + op.charge <= s.capacity
    ensures Keeps(StepPlace(s, a, op, success))
  {
    hide Count, InCache, CountRefs, UsageOk, TableOk, HolderOk;
    assert AgentOk(s, a);
    FreshWords();
    var n, s' := |s.handles|, StepPlace(s, a, op, success).s;
    NobodyAt(s, a, op, success);
    CountPut(s.pc, a, s'.pc[a], Refers(n));
    CountPut(s.pc, a, s'.pc[a], Owns(n));
    PlacedTable(s, s', a, op, n);
    PlacedNewUsage(s, s', a, op);
    HolderStep(s, s', a);
  }

  lemma PopLast(recycle: seq<Hid>)
    requires recycle != [] && multiset(recycle)[recycle[|recycle| - 1]] == 1
    ensures var h, rest := recycle[|recycle| - 1], recycle[..|recycle| - 1];
            && multiset(recycle) == multiset(rest) + multiset{h} && h !in rest
            && (forall x :: x in recycle <==> x in rest || x == h)
  {
    var h, rest := recycle[|recycle| - 1], recycle[..|recycle| - 1];
    assert recycle == rest + [h];
    assert h !in multiset(rest);
  }

  lemma PlacedReusedUsage(s: State, s': State, a: Agent, op: Op, h: Hid)
    requires Inv(s) && Placed(s, s', a, op, h) && h < |s.handles| && h in s.recycle && h !in s'.recycle
    requires forall x :: x in s.recycle <==> x in s'.recycle || x == h
    requires s'.handles[h].inserted == s.handles[h].inserted + 1 && s'.handles[h].recycled == s.handles[h].recycled
    ensures UsageOk(s')
  {
    hide Count, InCache, CountRefs, Balanced, TableOk;
    TotalSame(s.handles, s'.handles, Excluded(s), Excluded(s'));
  }

  lemma KeepsPlaceReused(s: State, a: Agent, op: Op, success: bool)
    requires Inv(s) && a in s.pc && s.pc[a] == Placing(op, success)
    requires op.Insert? && (success || (!s.strict && op.hold)) && s.recycle != []
    requires op.hold || s.usage + op.charge <= s.capacity
    ensures Keeps(StepPlace(s, a, op, success))
  {
    hide Count, InCache, CountRefs, TableOk, HolderOk, Total;
    assert AgentOk(s, a);
    var h := s.recycle[|s.recycle| - 1];
    assert h in s.recycle;
    Claims(s, a, h);
    PopLast(s.recycle);
    var s' := StepPlace(s, a, op, success).s;
    PlacedTable(s, s', a, op, h);
    PlacedReusedUsage(s, s', a, op, h);
    HolderStep(s, s', a);
  }

  /** The holder moves on without touching shared data. */
  lemma HolderStays(s: State, s': State, a: Agent)
    requires Inv(s) && a in s.pc && s.mutex == Some(a) && s' == Go(s, a, Unlocking)
    requires s.pc[a].Placing? || (s.pc[a].UnsettingAt? && s.pc[a].i >= |s.handles|)
    ensures Inv(s')
  {
    hide Count, Balanced, InCache, CountRefs, UsageOk;
    assert AgentOk(s, a);
    forall key | key in s'.table ensures EntryOk(s', key) {
      assert EntryOk(s, key);
    }
    forall h | 0 <= h < |s'.handles| ensures ListedOk(s', h) {
      assert ListedOk(s, h);
    }
    UsageKept(s, s');
    HolderStep(s, s', a);
  }

  lemma KeepsPlace(s: State, a: Agent, op: Op, success: bool)
    requires Inv(s) && a in s.pc && s.pc[a] == Placing(op, success)
    ensures Keeps(StepPlace(s, a, op, success))
  {
    hide Count, InCache, CountRefs;
    assert AgentOk(s, a);
    if !success && (s.strict || !op.hold) {
      HolderStays(s, StepPlace(s, a, op, success).s, a);
    } else if s.recycle == [] {
      KeepsPlaceNew(s, a, op, success);
    } else {
      KeepsPlaceReused(s, a, op, success);
    }
  }

  lemma KeepsStore(s: State, a: Agent, op: Op, h: Hid)
    requires Inv(s) && a in s.pc && s.pc[a] == Storing(op, h)
    ensures Keeps(StepStore(s, a, op, h))
  {
    hide Count, Balanced, InCache, CountRefs, UsageOk;
    assert AgentOk(s, a);
    Claims(s, a, h);
    FreshWords();
    var s' := StepStore(s, a, op, h).s;
    forall key | key in s'.table ensures EntryOk(s', key) && s'.table[key] != h {
      assert EntryOk(s, key);
    }
    forall x | 0 <= x < |s'.handles| ensures ListedOk(s', x) {
      assert ListedOk(s, x);
    }
    UsageKept(s, s');
    HolderStep(s, s', a);
  }

  lemma KeepsProbe(s: State, a: Agent, op: Op, h: Hid)
    requires Inv(s) && a in s.pc && s.pc[a] == Probing(op, h)
    ensures Keeps(StepProbe(s, a, op, h))
  {
    hide Count, Balanced, InCache, CountRefs, UsageOk;
    assert AgentOk(s, a);
    var s' := StepProbe(s, a, op, h).s;
    if op.key in s.table {
      assert EntryOk(s, op.key);
    }
    forall key | key in s'.table ensures EntryOk(s', key) {
      assert EntryOk(s, key);
    }
    forall x | 0 <= x < |s'.handles| ensures ListedOk(s', x) {
      assert ListedOk(s, x);
    }
    UsageKept(s, s');
    HolderStep(s, s', a);
  }

  lemma PublishedUsage(s: State, a: Agent, op: Op, h: Hid)
    requires Inv(s) && a in s.pc && s.pc[a] == Publishing(op, h) && op.Insert?
    ensures UsageOk(StepPublish(s, a, op, h).s)
  {
    hide Count, InCache, CountRefs, TableOk, Balanced;
    HolderFacts(s, a);
    Claims(s, a, h);
    var s' := StepPublish(s, a, op, h).s;
    assert Excluded(s) == Excluded(s') + {h};
    TotalExclude(s.handles, Excluded(s'), h);
  }

  lemma KeepsPublish(s: State, a: Agent, op: Op, h: Hid)
    requires Inv(s) && a in s.pc && s.pc[a] == Publishing(op, h)
    ensures Keeps(StepPublish(s, a, op, h))
  {
    hide Count, Balanced, InCache, CountRefs, UsageOk;
    HolderFacts(s, a);
    PublishedUsage(s, a, op, h);
    var s' := StepPublish(s, a, op, h).s;
    forall key | key in s'.table ensures EntryOk(s', key) {
      assert key in s.table ==> EntryOk(s, key);
    }
    forall x | 0 <= x < |s'.handles| ensures ListedOk(s', x) {
      assert ListedOk(s, x);
    }
    HolderStep(s, s', a);
  }

  // ----- clearing the in-cache bit

  /** The handle is out of the table, so losing the bit is all that happens. */
  lemma UnsetStep(s: State, a: Agent, e: Hid, next: Pc)
    requires Inv(s) && s.mutex == Some(a) && a in s.pc && e < |s.handles|
    requires forall key :: key in s.table ==> s.table[key] != e
    requires forall x :: MissingAt(s.pc[a], x) && x != e ==> MissingAt(next, x)
    requires HoldsMutex(next) && Unadded(next) == Unadded(s.pc[a]) && !next.Evicting? && !s.pc[a].Evicting?
    requires forall x :: RefersAt(next, x) == RefersAt(s.pc[a], x)
    requires forall x :: !OwnsAt(s.pc[a], x)
    requires var w := s.handles[e].flags;
             forall x :: OwnsAt(next, x) <==> x == e && InCache(w) && CountRefs(w) == 0
    requires var s' := Go(SetFlags(s, e, WithoutInCache(s.handles[e].flags)), a, next); HolderOk(s') && AgentOk(s', a)
    ensures Inv(Go(SetFlags(s, e, WithoutInCache(s.handles[e].flags)), a, next))
  {
    hide Count, Balanced, InCache, CountRefs, UsageOk, WithoutInCache, HasUsage, HolderOk, AgentOk;
    InCacheBit(s.handles[e].flags);
    var s' := Go(SetFlags(s, e, WithoutInCache(s.handles[e].flags)), a, next);
    forall key | key in s'.table ensures EntryOk(s', key) {
      assert EntryOk(s, key);
    }
    forall x | 0 <= x < |s'.handles| ensures ListedOk(s', x) {
      assert ListedOk(s, x);
    }
    UsageKept(s, s');
    HolderStep(s, s', a);
  }

  lemma KeepsUnset(s: State, a: Agent, op: Op, h: Hid, e: Hid)
    requires Inv(s) && a in s.pc && s.pc[a] == Unsetting(op, h, e)
    ensures Keeps(StepUnset(s, a, op, h, e))
  {
    hide Count, Balanced, InCache, CountRefs, WithoutInCache, HasUsage;
    assert AgentOk(s, a);
    forall key | key in s.table ensures s.table[key] != e {
      assert EntryOk(s, key);
    }
    UnsetStep(s, a, e, StepUnset(s, a, op, h, e).s.pc[a]);
  }

  lemma KeepsEraseUnset(s: State, a: Agent, h: Hid)
    requires Inv(s) && a in s.pc && s.pc[a] == ErasingUnset(h)
    ensures Keeps(StepEraseUnset(s, a, h))
  {
    hide Count, Balanced, InCache, CountRefs, WithoutInCache, HasUsage;
    assert AgentOk(s, a);
    forall key | key in s.table ensures s.table[key] != h {
      assert EntryOk(s, key);
    }
    UnsetStep(s, a, h, StepEraseUnset(s, a, h).s.pc[a]);
  }

  lemma KeepsUnsetAt(s: State, a: Agent, i: nat)
    requires Inv(s) && a in s.pc && s.pc[a] == UnsettingAt(i)
    ensures Keeps(StepUnsetAt(s, a, i))
  {
    hide Count, Balanced, InCache, CountRefs, WithoutInCache, HasUsage;
    assert AgentOk(s, a);
    if i >= |s.handles| {
      HolderStays(s, StepUnsetAt(s, a, i).s, a);
    } else {
      UnsetStep(s, a, i, StepUnsetAt(s, a, i).s.pc[a]);
    }
  }

  // ----- runs

  lemma KeepsUnlocked(s: State, a: Agent)
    requires Inv(s) && a in s.pc && !HoldsMutex(s.pc[a])
    ensures Keeps(Step(s, a))
  {
    hide Inv;
    match s.pc[a]
    case Done =>
    case Finding(key) => KeepsFind(s, a, key);
    case Loading(key, h) => KeepsLoad(s, a, key, h);
    case Swapping(key, h, w) => KeepsSwap(s, a, key, h, w);
    case Comparing(key, h) => KeepsCompare(s, a, key, h);
    case Holding(_, _) =>
    case Touching(h) => KeepsTouch(s, a, h);
    case Dropping(h) => KeepsDrop(s, a, h);
    case WaitingLast(h) => KeepsLock(s, a, RecyclingLast(h));
    case Waiting(op) => KeepsLock(s, a, Entering(op));
  }

  lemma KeepsLocked(s: State, a: Agent)
    requires Inv(s) && a in s.pc && HoldsMutex(s.pc[a])
    ensures Keeps(Step(s, a))
  {
    hide Inv;
    HolderFacts(s, a);
    match s.pc[a]
    case RecyclingLast(h) => KeepsRecycle(s, a, h, Unlocking);
    case Entering(op) =>
      if op.Erase? {
        KeepsEnterErase(s, a, op);
      } else if op.EraseUnRef? {
        KeepsEnterUnRef(s, a, op);
      } else {
        KeepsEnterSweep(s, a, op);
      }
    case Sweeping(op, w) => KeepsSweep(s, a, op, w);
    case Evicting(op, w) => KeepsEvict(s, a, op, w);
    case Sparing(op, w) => KeepsSpare(s, a, op, w);
    case Placing(op, success) => KeepsPlace(s, a, op, success);
    case Storing(op, h) => KeepsStore(s, a, op, h);
    case Probing(op, h) => KeepsProbe(s, a, op, h);
    case Unsetting(op, h, e) => KeepsUnset(s, a, op, h, e);
    case RecyclingOld(op, h, e) => KeepsRecycle(s, a, e, Publishing(op, h));
    case Publishing(op, h) => KeepsPublish(s, a, op, h);
    case ErasingUnset(h) => KeepsEraseUnset(s, a, h);
    case ErasingRecycle(h) => KeepsRecycle(s, a, h, Unlocking);
    case UnsettingAt(i) => KeepsUnsetAt(s, a, i);
    case RecyclingAt(i) => KeepsRecycle(s, a, i, UnsettingAt(i + 1));
    case Unlocking => KeepsUnlock(s, a, Done);
    case UnlockingWith(key, h) => KeepsUnlock(s, a, Holding(key, h));
  }

  lemma KeepsStrict(s: State, strict: bool)
    requires Inv(s)
    ensures Inv(s.(strict := strict))
  {
    hide Count, InCache, CountRefs, Total;
    var s' := s.(strict := strict);
    assert forall h: nat :: Balanced(s, h) ==> Balanced(s', h);
    assert forall a :: a in s.pc && AgentOk(s, a) ==> AgentOk(s', a);
    assert forall key :: key in s.table && EntryOk(s, key) ==> EntryOk(s', key);
    assert forall h :: 0 <= h < |s.handles| && ListedOk(s, h) ==> ListedOk(s', h);
  }

  lemma StepKeeps(s: State, action: Action)
    requires Inv(s)
    ensures Keeps(Do(s, action))
  {
    hide Inv;
    match action
    case StartLookup(a, key) => if a !in s.pc { KeepsStart(s, a, Finding(key)); }
    case StartOp(a, op) => if a !in s.pc { KeepsStart(s, a, Waiting(op)); }
    case StartRelease(a) => if a in s.pc && s.pc[a].Holding? { KeepsStart(s, a, Touching(s.pc[a].h)); }
    case Duplicate(a, b) => KeepsDuplicate(s, a, b);
    case SetStrict(strict) => KeepsStrict(s, strict);
    case Proceed(a) =>
      if a in s.pc {
        if HoldsMutex(s.pc[a]) { KeepsLocked(s, a); } else { KeepsUnlocked(s, a); }
      }
  }

  lemma InitialInv()
    ensures Inv(INITIAL)
  {
  }

  lemma {:induction false} RunKeeps(actions: seq<Action>)
    ensures Run(actions).Some? ==> Inv(Run(actions).value)
  {
    hide Inv;
    if actions == [] {
      InitialInv();
    } else {
      var before := actions[..|actions| - 1];
      RunKeeps(before);
      if Run(before).Some? {
        StepKeeps(Run(before).value, actions[|actions| - 1]);
      }
    }
  }

  // ----- what every interleaving guarantees

  /** No assertion of the code fails: a handle is recycled only without references
      and without its in-cache bit, an evicted key is found in the table, and a
      released reference was counted. */
  lemma NoAssertionFails(actions: seq<Action>, action: Action)
    requires Run(actions).Some?
    ensures !Do(Run(actions).value, action).Fails?
  {
    hide Run, Do, Inv;
    RunKeeps(actions);
    StepKeeps(Run(actions).value, action);
  }

  /** Each use of a handle is recycled at most once; the handles whose last use
      was recycled are exactly the recycle bin, which has no duplicates. */
  lemma RecycledOncePerInsertion(actions: seq<Action>, h: Hid)
    requires Run(actions).Some? && h < |Run(actions).value.handles|
    ensures var s := Run(actions).value;
            && s.handles[h].inserted == s.handles[h].recycled + (if h in s.recycle then 0 else 1)
            && (h in s.recycle ==> multiset(s.recycle)[h] == 1 && Dead(s.handles[h].flags))
            && CountRefs(s.handles[h].flags) == Count(s.pc, Refers(h))
  {
    hide Run, InCache, CountRefs, Count;
    RunKeeps(actions);
    var s := Run(actions).value;
    assert Balanced(s, h);
    assert h in s.recycle <==> h in multiset(s.recycle);
  }

  /** A handle that went out of use is in the recycle bin unless some agent is
      on its way to put it there, or to fill it. */
  lemma UnusedIsRecycled(actions: seq<Action>, h: Hid)
    requires Run(actions).Some? && h < |Run(actions).value.handles|
    requires forall a :: a in Run(actions).value.pc ==> !OwnsAt(Run(actions).value.pc[a], h)
    ensures var s := Run(actions).value; Dead(s.handles[h].flags) <==> h in s.recycle
  {
    hide Run, InCache, CountRefs;
    RunKeeps(actions);
    var s := Run(actions).value;
    assert Balanced(s, h);
    assert Where(s.pc, Owns(h)) == {};
    assert h in s.recycle <==> h in multiset(s.recycle);
  }

  predicate Listed(s: State, h: Hid, key: Key)
  {
    h < |s.handles| && s.handles[h].key == Some(key) && InCache(s.handles[h].flags)
  }

  ghost predicate AtRest(s: State)
  {
    && s.usage == Total(s.handles, Bin(s))
    && (forall key :: key in s.table ==> Listed(s, s.table[key], key))
    && (forall h :: 0 <= h < |s.handles| && InCache(s.handles[h].flags) ==>
          s.handles[h].key.Some? && s.handles[h].key.value in s.table && s.table[s.handles[h].key.value] == h)
  }

  lemma FreeFacts(s: State)
    requires Inv(s) && s.mutex == None
    ensures AtRest(s)
  {
    hide InCache, CountRefs, Count, Total, Balanced, AgentOk;
    assert Excluded(s) == Bin(s);
    assert s.usage == Total(s.handles, Bin(s));
    forall key | key in s.table ensures Listed(s, s.table[key], key) {
      assert EntryOk(s, key);
    }
    forall h | 0 <= h < |s.handles| && InCache(s.handles[h].flags)
      ensures s.handles[h].key.Some? && s.handles[h].key.value in s.table && s.table[s.handles[h].key.value] == h
    {
      assert ListedOk(s, h);
    }
  }

  /** With the mutex free, the usage is the charge of the handles not recycled,
      and the table holds exactly the handles whose in-cache bit is set. */
  lemma MutexFree(actions: seq<Action>)
    requires Run(actions).Some? && Run(actions).value.mutex == None
    ensures AtRest(Run(actions).value)
  {
    hide Run, Inv, AtRest;
    RunKeeps(actions);
    FreeFacts(Run(actions).value);
  }

  lemma HolderOfHandle(s: State, a: Agent)
    requires Inv(s) && a in s.pc && s.pc[a].Holding?
    ensures var h := s.pc[a].h;
            && h < |s.handles| && s.handles[h].key == Some(s.pc[a].key)
            && CountRefs(s.handles[h].flags) > 0 && h !in s.recycle
  {
    assert AgentOk(s, a);
    Claims(s, a, s.pc[a].h);
  }

  predicate SameUse(s: State, s': State, h: Hid)
    requires h < |s.handles|
  {
    h < |s'.handles| && s'.handles[h] == s.handles[h].(flags := s'.handles[h].flags)
  }

  lemma UnlockedSameUse(s: State, a: Agent, h: Hid)
    requires a in s.pc && !HoldsMutex(s.pc[a]) && Step(s, a).Ok? && h < |s.handles|
    ensures SameUse(s, Step(s, a).s, h)
  {
    hide InCache, CountRefs, HasUsage;
  }

  predicate Recycles(pc: Pc)
  {
    pc.Evicting? || pc.RecyclingLast? || pc.RecyclingOld? || pc.ErasingRecycle? || pc.RecyclingAt?
  }

  lemma LockedSameUse(s: State, a: Agent, h: Hid)
    requires a in s.pc && HoldsMutex(s.pc[a]) && Step(s, a).Ok? && !Recycles(s.pc[a])
    requires h < |s.handles| && h !in s.recycle
    ensures SameUse(s, Step(s, a).s, h)
  {
    hide InCache, CountRefs, HasUsage;
  }

  lemma RecycleSameUse(s: State, a: Agent, h: Hid)
    requires a in s.pc && Step(s, a).Ok? && Recycles(s.pc[a])
    requires h < |s.handles| && CountRefs(s.handles[h].flags) > 0
    ensures SameUse(s, Step(s, a).s, h)
  {
    hide InCache, CountRefs, HasUsage;
  }

  lemma Idle(s: State, a: Agent)
    requires a !in s.pc
    ensures Step(s, a).Disabled?
  {
  }

  lemma OnlyDeadChange(s: State, action: Action, h: Hid)
    requires Do(s, action).Ok? && h < |s.handles| && h !in s.recycle && CountRefs(s.handles[h].flags) > 0
    ensures SameUse(s, Do(s, action).s, h)
  {
    hide Step, InCache, CountRefs, HasUsage;
    if action.Proceed? {
      if action.a in s.pc {
        if Recycles(s.pc[action.a]) {
          RecycleSameUse(s, action.a, h);
        } else if HoldsMutex(s.pc[action.a]) {
          LockedSameUse(s, action.a, h);
        } else {
          UnlockedSameUse(s, action.a, h);
        }
      } else {
        Idle(s, action.a);
      }
    }
  }

  /** A handle returned by Lookup or Insert keeps the requested key, charge and
      use, whatever the other agents do, until it is released. */
  lemma HeldUntouched(actions: seq<Action>, action: Action, a: Agent)
    requires Run(actions).Some? && Do(Run(actions).value, action).Ok?
    requires a in Run(actions).value.pc && Run(actions).value.pc[a].Holding?
    ensures var s, s' := Run(actions).value, Do(Run(actions).value, action).s;
            var h := s.pc[a].h;
            && h < |s.handles| && s.handles[h].key == Some(s.pc[a].key)
            && CountRefs(s.handles[h].flags) > 0 && h !in s.recycle
            && SameUse(s, s', h)
  {
    hide Run, Do, InCache, CountRefs, Count, Inv;
    RunKeeps(actions);
    var s := Run(actions).value;
    HolderOfHandle(s, a);
    OnlyDeadChange(s, action, s.pc[a].h);
  }

  /** An insertion that does not hold a reference leaves the usage within the capacity. */
  lemma UnheldInsertFits(actions: seq<Action>, a: Agent)
    requires Run(actions).Some? && a in Run(actions).value.pc
    requires Run(actions).value.pc[a].Publishing?
    requires Run(actions).value.pc[a].op.Insert? ==> !Run(actions).value.pc[a].op.hold
    ensures var o := Step(Run(actions).value, a); o.Ok? && o.s.usage <= o.s.capacity
  {
    hide Run, InCache, CountRefs, Count, Total, Inv;
    RunKeeps(actions);
    HolderFacts(Run(actions).value, a);
  }
}
