/** One CLOCK cache shard as interleaved atomic steps of any number of agents
    (an agent is one operation in flight, or one client reference). The flag
    word, the mutex and the hash table are shared; what the code does under the
    mutex to mutex-guarded data is merged into the neighbouring atomic access.
    Every assertion of the code is a `Fails` outcome. */
module ClockCache {
  import opened Records

  type Agent = nat
  /** A hash table key: the key bytes together with their hash. */
  type Key = int
  /** A handle is identified by its index in the circular list. */
  type Hid = nat

  // ----- the flag word: in-cache bit, usage bit, reference count

  const IN_CACHE := 1
  const USAGE := 2
  const ONE_REF := 4

  predicate InCache(w: nat) { w % 2 == 1 }
  predicate HasUsage(w: nat) { w / 2 % 2 == 1 }
  function CountRefs(w: nat): nat { w / 4 }

  /** fetch_or(kUsageBit), fetch_and(~kUsageBit), fetch_and(~kInCacheBit) */
  function WithUsage(w: nat): nat { if HasUsage(w) then w else w + USAGE }
  function WithoutUsage(w: nat): nat { if HasUsage(w) then w - USAGE else w }
  function WithoutInCache(w: nat): nat { if InCache(w) then w - IN_CACHE else w }

  /** `inserted` and `recycled` count the uses of the handle. */
  datatype Handle = Handle(key: Option<Key>, charge: nat, flags: nat, inserted: nat, recycled: nat)

  datatype Op = Insert(key: Key, charge: nat, hold: bool) | SetCapacity(capacity: nat) | Erase(key: Key) | EraseUnRef

  /** EvictFromCache's local variables. */
  datatype Sweep = Sweep(newHead: nat, second: bool, usage: int)

  datatype Pc =
    | Done
    // Lookup
    | Finding(key: Key)
    | Loading(key: Key, h: Hid)
    | Swapping(key: Key, h: Hid, w: nat)
    | Comparing(key: Key, h: Hid)
    | Holding(key: Key, h: Hid)
    // Unref
    | Touching(h: Hid)
    | Dropping(h: Hid)
    | WaitingLast(h: Hid)
    | RecyclingLast(h: Hid)
    // under the mutex
    | Waiting(op: Op)
    | Entering(op: Op)
    | Sweeping(op: Op, sweep: Sweep)
    | Evicting(op: Op, sweep: Sweep)
    | Sparing(op: Op, sweep: Sweep)
    | Placing(op: Op, success: bool)
    | Storing(op: Op, h: Hid)
    | Probing(op: Op, h: Hid)
    | Unsetting(op: Op, h: Hid, existing: Hid)
    | RecyclingOld(op: Op, h: Hid, existing: Hid)
    | Publishing(op: Op, h: Hid)
    | ErasingUnset(h: Hid)
    | ErasingRecycle(h: Hid)
    | UnsettingAt(i: nat)
    | RecyclingAt(i: nat)
    | Unlocking
    | UnlockingWith(key: Key, h: Hid)

  datatype State = State(
    handles: seq<Handle>,
    head: nat,
    recycle: seq<Hid>,
    table: map<Key, Hid>,
    usage: int,
    capacity: nat,
    strict: bool,
    mutex: Option<Agent>,
    pc: map<Agent, Pc>)

  datatype Outcome = Disabled | Fails | Ok(s: State)

  function Go(s: State, a: Agent, pc: Pc): State
  {
    s.(pc := s.pc[a := pc])
  }

  function SetFlags(s: State, h: Hid, w: nat): State
    requires h < |s.handles|
  {
    s.(handles := s.handles[h := s.handles[h].(flags := w)])
  }

  predicate Dead(w: nat)
  {
    !InCache(w) && CountRefs(w) == 0
  }

  /** RecycleHandle, which asserts that nobody refers to the handle. */
  predicate CanRecycle(s: State, h: Hid)
  {
    h < |s.handles| && Dead(s.handles[h].flags)
  }

  function Recycle(s: State, h: Hid): State
    requires h < |s.handles|
  {
    var x := s.handles[h];
    s.(handles := s.handles[h := x.(key := None, recycled := x.recycled + 1)],
       recycle := s.recycle + [h], usage := s.usage - x.charge)
  }

  // ----- Lookup

  function StepFind(s: State, a: Agent, key: Key): Outcome
  {
    if key in s.table then Ok(Go(s, a, Loading(key, s.table[key]))) else Ok(Go(s, a, Done))
  }

  /** Ref: load the word... */
  function StepLoad(s: State, a: Agent, key: Key, h: Hid): Outcome
  {
    if h >= |s.handles| then Fails
    else
      var w := s.handles[h].flags;
      Ok(Go(s, a, if InCache(w) then Swapping(key, h, w) else Done))
  }

  /** ...and compare-exchange it, starting over with the new word on failure. */
  function StepSwap(s: State, a: Agent, key: Key, h: Hid, w: nat): Outcome
  {
    if h >= |s.handles| then Fails
    else
      var now := s.handles[h].flags;
      if now == w then Ok(Go(SetFlags(s, h, w + ONE_REF), a, Comparing(key, h)))
      else Ok(Go(s, a, if InCache(now) then Swapping(key, h, now) else Done))
  }

  /** The handle may meanwhile stand for another key. */
  function StepCompare(s: State, a: Agent, key: Key, h: Hid): Outcome
  {
    if h >= |s.handles| || s.handles[h].key.None? then Fails
    else Ok(Go(s, a, if s.handles[h].key == Some(key) then Holding(key, h) else Dropping(h)))
  }

  // ----- Unref

  function StepTouch(s: State, a: Agent, h: Hid): Outcome
  {
    if h >= |s.handles| then Fails
    else Ok(Go(SetFlags(s, h, WithUsage(s.handles[h].flags)), a, Dropping(h)))
  }

  function StepDrop(s: State, a: Agent, h: Hid): Outcome
  {
    if h >= |s.handles| || CountRefs(s.handles[h].flags) == 0 then Fails
    else
      var w := s.handles[h].flags;
      Ok(Go(SetFlags(s, h, w - ONE_REF), a, if CountRefs(w) == 1 && !InCache(w) then WaitingLast(h) else Done))
  }

  function StepLock(s: State, a: Agent, next: Pc): Outcome
  {
    if s.mutex.Some? then Disabled else Ok(Go(s, a, next).(mutex := Some(a)))
  }

  function StepRecycle(s: State, a: Agent, h: Hid, next: Pc): Outcome
  {
    if !CanRecycle(s, h) then Fails else Ok(Go(Recycle(s, h), a, next))
  }

  function StepUnlock(s: State, a: Agent, next: Pc): Outcome
  {
    Ok(Go(s, a, next).(mutex := None))
  }

  // ----- EvictFromCache

  function Charge(op: Op): nat
  {
    if op.Insert? then op.charge else 0
  }

  function AfterSweep(op: Op, success: bool): Pc
  {
    if op.Insert? then Placing(op, success) else Unlocking
  }

  function SweepStart(s: State, op: Op, capacity: nat): Pc
  {
    if s.usage == 0 then AfterSweep(op, Charge(op) <= capacity)
    else Sweeping(op, Sweep(s.head, false, s.usage))
  }

  function StepEnter(s: State, a: Agent, op: Op): Outcome
  {
    match op
    case Erase(key) =>
      if key in s.table then Ok(Go(s, a, ErasingUnset(s.table[key])).(table := s.table - {key}))
      else Ok(Go(s, a, Unlocking))
    case EraseUnRef => Ok(Go(s, a, UnsettingAt(0)).(table := map[]))
    case Insert(_, charge, _) => Ok(Go(s, a, SweepStart(s, op, s.capacity)))
    case SetCapacity(capacity) => Ok(Go(s, a, SweepStart(s, op, capacity)).(capacity := capacity))
  }

  /** TryEvict: the word must be exactly the in-cache bit. */
  function StepSweep(s: State, a: Agent, op: Op, w: Sweep): Outcome
  {
    if w.usage + Charge(op) <= s.capacity then Ok(Go(s, a, AfterSweep(op, true)).(head := w.newHead))
    else if w.newHead >= |s.handles| then Fails
    else if s.handles[w.newHead].flags == IN_CACHE then Ok(Go(SetFlags(s, w.newHead, 0), a, Evicting(op, w)))
    else Ok(Go(s, a, Sparing(op, w)))
  }

  function Advance(s: State, op: Op, w: Sweep): Pc
  {
    var next := if w.newHead + 1 >= |s.handles| then 0 else w.newHead + 1;
    if next == s.head && w.second then AfterSweep(op, false)
    else Sweeping(op, Sweep(next, w.second || next == s.head, w.usage))
  }

  /** The evicted handle leaves the table (asserted to be there) and is recycled. */
  function StepEvict(s: State, a: Agent, op: Op, w: Sweep): Outcome
  {
    var h := w.newHead;
    if !CanRecycle(s, h) || s.handles[h].key.None? || s.handles[h].key.value !in s.table then Fails
    else
      var s' := Recycle(s.(table := s.table - {s.handles[h].key.value}), h);
      Ok(Go(s', a, Advance(s', op, w.(usage := s'.usage))))
  }

  function StepSpare(s: State, a: Agent, op: Op, w: Sweep): Outcome
  {
    if w.newHead >= |s.handles| then Fails
    else Ok(Go(SetFlags(s, w.newHead, WithoutUsage(s.handles[w.newHead].flags)), a, Advance(s, op, w)))
  }

  // ----- Insert

  /** Takes a handle from the recycle bin, or appends one, and fills it. */
  function StepPlace(s: State, a: Agent, op: Op, success: bool): Outcome
  {
    if !op.Insert? then Fails
    else if !success && (s.strict || !op.hold) then Ok(Go(s, a, Unlocking))
    else if s.recycle != [] then
      var h := s.recycle[|s.recycle| - 1];
      if h >= |s.handles| then Fails
      else
        var x := s.handles[h];
        Ok(Go(s, a, Storing(op, h)).(
             recycle := s.recycle[..|s.recycle| - 1],
             handles := s.handles[h := x.(key := Some(op.key), charge := op.charge, inserted := x.inserted + 1)]))
    else
      Ok(Go(s, a, Storing(op, |s.handles|)).(
           handles := s.handles + [Handle(Some(op.key), op.charge, 0, 1, 0)]))
  }

  function StepStore(s: State, a: Agent, op: Op, h: Hid): Outcome
  {
    if h >= |s.handles| || !op.Insert? then Fails
    else Ok(Go(SetFlags(s, h, if op.hold then IN_CACHE + ONE_REF else IN_CACHE), a, Probing(op, h)))
  }

  function StepProbe(s: State, a: Agent, op: Op, h: Hid): Outcome
  {
    if !op.Insert? then Fails
    else if op.key in s.table then
      Ok(Go(s, a, Unsetting(op, h, s.table[op.key])).(table := s.table - {op.key}))
    else Ok(Go(s, a, Publishing(op, h)))
  }

  /** UnsetInCache on the entry that is being replaced. */
  function StepUnset(s: State, a: Agent, op: Op, h: Hid, existing: Hid): Outcome
  {
    if existing >= |s.handles| then Fails
    else
      var w := s.handles[existing].flags;
      Ok(Go(SetFlags(s, existing, WithoutInCache(w)), a,
            if InCache(w) && CountRefs(w) == 0 then RecyclingOld(op, h, existing) else Publishing(op, h)))
  }

  function StepPublish(s: State, a: Agent, op: Op, h: Hid): Outcome
  {
    if !op.Insert? then Fails
    else Ok(Go(s, a, if op.hold then UnlockingWith(op.key, h) else Unlocking).(
              table := s.table[op.key := h], usage := s.usage + op.charge))
  }

  // ----- EraseAndConfirm, EraseUnRefEntries

  function StepEraseUnset(s: State, a: Agent, h: Hid): Outcome
  {
    if h >= |s.handles| then Fails
    else
      var w := s.handles[h].flags;
      Ok(Go(SetFlags(s, h, WithoutInCache(w)), a,
            if InCache(w) && CountRefs(w) == 0 then ErasingRecycle(h) else Unlocking))
  }

  function StepUnsetAt(s: State, a: Agent, i: nat): Outcome
  {
    if i >= |s.handles| then Ok(Go(s, a, Unlocking))
    else
      var w := s.handles[i].flags;
      Ok(Go(SetFlags(s, i, WithoutInCache(w)), a,
            if InCache(w) && CountRefs(w) == 0 then RecyclingAt(i) else UnsettingAt(i + 1)))
  }

  // ----- runs

  /** The next atomic step of agent `a`. */
  function Step(s: State, a: Agent): Outcome
  {
    if a !in s.pc then Disabled
    else match s.pc[a]
      case Done => Disabled
      case Finding(key) => StepFind(s, a, key)
      case Loading(key, h) => StepLoad(s, a, key, h)
      case Swapping(key, h, w) => StepSwap(s, a, key, h, w)
      case Comparing(key, h) => StepCompare(s, a, key, h)
      case Holding(_, _) => Disabled
      case Touching(h) => StepTouch(s, a, h)
      case Dropping(h) => StepDrop(s, a, h)
      case WaitingLast(h) => StepLock(s, a, RecyclingLast(h))
      case RecyclingLast(h) => StepRecycle(s, a, h, Unlocking)
      case Waiting(op) => StepLock(s, a, Entering(op))
      case Entering(op) => StepEnter(s, a, op)
      case Sweeping(op, w) => StepSweep(s, a, op, w)
      case Evicting(op, w) => StepEvict(s, a, op, w)
      case Sparing(op, w) => StepSpare(s, a, op, w)
      case Placing(op, success) => StepPlace(s, a, op, success)
      case Storing(op, h) => StepStore(s, a, op, h)
      case Probing(op, h) => StepProbe(s, a, op, h)
      case Unsetting(op, h, existing) => StepUnset(s, a, op, h, existing)
      case RecyclingOld(op, h, existing) => StepRecycle(s, a, existing, Publishing(op, h))
      case Publishing(op, h) => StepPublish(s, a, op, h)
      case ErasingUnset(h) => StepEraseUnset(s, a, h)
      case ErasingRecycle(h) => StepRecycle(s, a, h, Unlocking)
      case UnsettingAt(i) => StepUnsetAt(s, a, i)
      case RecyclingAt(i) => StepRecycle(s, a, i, UnsettingAt(i + 1))
      case Unlocking => StepUnlock(s, a, Done)
      case UnlockingWith(key, h) => StepUnlock(s, a, Holding(key, h))
  }

  datatype Action =
    | StartLookup(a: Agent, key: Key)
    | StartOp(a: Agent, op: Op)
    | StartRelease(a: Agent)
    | Duplicate(a: Agent, b: Agent)
    | SetStrict(strict: bool)
    | Proceed(a: Agent)

  /** A client holding a reference takes another one with Ref. */
  function DoDuplicate(s: State, a: Agent, b: Agent): Outcome
  {
    if !(a in s.pc && s.pc[a].Holding? && b !in s.pc) then Disabled
    else
      var h := s.pc[a].h;
      if h >= |s.handles| then Fails
      else if !InCache(s.handles[h].flags) then Disabled
      else Ok(Go(SetFlags(s, h, s.handles[h].flags + ONE_REF), b, s.pc[a]))
  }

  function Do(s: State, action: Action): Outcome
  {
    match action
    case StartLookup(a, key) => if a in s.pc then Disabled else Ok(Go(s, a, Finding(key)))
    case StartOp(a, op) => if a in s.pc then Disabled else Ok(Go(s, a, Waiting(op)))
    case StartRelease(a) =>
      if a in s.pc && s.pc[a].Holding? then Ok(Go(s, a, Touching(s.pc[a].h))) else Disabled
    case Duplicate(a, b) => DoDuplicate(s, a, b)
    case SetStrict(strict) => Ok(s.(strict := strict))
    case Proceed(a) => Step(s, a)
  }

  const INITIAL: State := State([], 0, [], map[], 0, 0, false, None, map[])

  /** The state after an interleaving, if every step of it was enabled. */
  function Run(actions: seq<Action>): Option<State>
  {
    if actions == [] then Some(INITIAL)
    else match Run(actions[..|actions| - 1])
      case None => None
      case Some(s) =>
        match Do(s, actions[|actions| - 1])
        case Ok(s') => Some(s')
        case _ => None
  }
}
