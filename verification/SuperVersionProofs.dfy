/** Every reachable state of the SuperVersion protocol is balanced: reference
    counts equal holders, and each SuperVersion is cleaned up exactly once. */
module SuperVersionProofs {
  import opened Records
  import opened SuperVersions
  import opened Counting

  function SlotIs(sv: Sv): Slot -> bool
  {
    slot => slot == Cached(sv)
  }

  predicate HoldsOneAt(pc: Pc, sv: Sv)
  {
    match pc
    case Swapped(_, got) => got == Cached(sv)
    case Stale(_, x) => x == sv
    case Unlocking(_, x) => x == sv
    case Using(_, x) => x == sv
    case Pinning(x) => x == sv
    case PinDrop(x) => x == sv
    case Dropping(x) => x == sv
    case Exiting(slot) => slot == Cached(sv)
    case _ => false
  }

  /** GetReferencedSuperVersion holds a second reference for a while. */
  predicate HoldsTwoAt(pc: Pc, sv: Sv)
  {
    match pc
    case Pinning(x) => x == sv
    case PinDrop(x) => x == sv
    case _ => false
  }

  /** The thread has dropped the last reference and owes the cleanup. */
  predicate CleansAt(pc: Pc, sv: Sv)
  {
    match pc
    case NeedLock(_, dead) => dead == Some(sv)
    case Locked(_, dead) => dead == Some(sv)
    case CleanWait(x) => x == sv
    case Cleaning(x) => x == sv
    case _ => false
  }

  function HoldsOne(sv: Sv): Pc -> bool { pc => HoldsOneAt(pc, sv) }
  function HoldsTwo(sv: Sv): Pc -> bool { pc => HoldsTwoAt(pc, sv) }
  function Cleans(sv: Sv): Pc -> bool { pc => CleansAt(pc, sv) }

  function InstallRef(i: Install): Option<Sv>
  {
    match i
    case Created(next) => Some(next)
    case Published(_, prior) => prior
    case Numbered(_, prior) => prior
    case Stamped(prior) => Some(prior)
    case Scraping(prior, _, _) => Some(prior)
    case Unreffing(prior, _) => Some(prior)
    case _ => None
  }

  function Taken(i: Install): map<Thread, Slot>
  {
    match i
    case Scraping(_, _, taken) => taken
    case Unreffing(_, taken) => taken
    case _ => map[]
  }

  /** super_version_, the installer, thread slots, scraped pointers, threads in
      a Get or a Return, and callers of GetReferencedSuperVersion. */
  ghost function Holders(s: State, sv: Sv): nat
  {
    One(s.current == Some(sv)) + One(InstallRef(s.install) == Some(sv))
    + Count(s.slots, SlotIs(sv)) + Count(Taken(s.install), SlotIs(sv))
    + Count(s.pc, HoldsOne(sv)) + Count(s.pc, HoldsTwo(sv)) + s.pins[sv]
  }

  ghost function Cleaners(s: State, sv: Sv): nat
  {
    Count(s.pc, Cleans(sv)) + One(s.install == CleanOld(sv))
  }

  /** The count is exact; while it is positive nobody has cleaned or will clean;
      at zero the cleanup has happened once or exactly one party owes it. A
      SuperVersion that does not exist is held by nobody. */
  ghost predicate Balanced(s: State, sv: Sv)
  {
    if sv in s.refs && sv in s.cleanups then
      s.refs[sv] == Holders(s, sv) && s.cleanups[sv] + Cleaners(s, sv) == One(s.refs[sv] == 0)
    else
      Holders(s, sv) + Cleaners(s, sv) == 0
  }

  // ----- the other invariants

  /** The thread is between its Swap and its CompareAndSwap. */
  predicate InGet(pc: Pc)
  {
    pc.Swapped? || pc.Stale? || pc.NeedLock? || pc.Locked? || pc.Referring? || pc.Unlocking? || pc.Using? || pc.Pinning?
  }

  predicate HoldsMutex(pc: Pc)
  {
    pc.Locked? || pc.Referring? || pc.Unlocking? || pc.Cleaning? || pc.CleanUnlock?
  }

  /** A slot of `t` may hold the current SuperVersion or, while an install has
      not yet scraped `t`, its predecessor. */
  predicate Cacheable(s: State, t: Thread, sv: Sv)
  {
    s.current == Some(sv) ||
    match s.install
    case Published(_, prior) => prior == Some(sv)
    case Numbered(_, prior) => prior == Some(sv)
    case Stamped(prior) => prior == sv
    case Scraping(prior, todo, _) => prior == sv && t in todo
    case _ => false
  }

  /** The SuperVersion the thread would put back into its slot. */
  function PutsBack(pc: Pc): Option<Sv>
  {
    match pc
    case Swapped(_, Cached(sv)) => Some(sv)
    case Unlocking(_, sv) => Some(sv)
    case Using(_, sv) => Some(sv)
    case Pinning(sv) => Some(sv)
    case _ => None
  }

  function BeganAt(pc: Pc): nat
  {
    match pc
    case Began(n) => n
    case Swapped(n, _) => n
    case Stale(n, _) => n
    case NeedLock(n, _) => n
    case Locked(n, _) => n
    case Referring(n) => n
    case Unlocking(n, _) => n
    case Using(n, _) => n
    case _ => 0
  }

  predicate IsStamped(s: State, sv: Sv)
  {
    sv in s.version && s.version[sv] <= s.number
  }

  /** What a reader has obtained is no older than the number when its Get began. */
  predicate FreshFor(s: State, pc: Pc)
  {
    match pc
    case Unlocking(n, sv) => IsStamped(s, sv) && n <= s.version[sv]
    case Using(n, sv) => IsStamped(s, sv) && n <= s.version[sv]
    case _ => true
  }

  predicate ThreadOk(s: State, t: Thread)
  {
    && t in s.slots && t in s.pc
    && var pc := s.pc[t]; var slot := s.slots[t];
    && (slot.InUse? ==> InGet(pc))
    && (InGet(pc) ==> !slot.Cached?)
    && (slot.Cached? ==> Cacheable(s, t, slot.sv) && IsStamped(s, slot.sv))
    && (slot.InUse? && PutsBack(pc).Some? ==> Cacheable(s, t, PutsBack(pc).value))
    && (PutsBack(pc).Some? ==> IsStamped(s, PutsBack(pc).value))
    && pc != Swapped(BeganAt(pc), InUse) && pc != Exiting(InUse)
    && (pc.Exiting? && pc.slot.Cached? ==> Cacheable(s, t, pc.slot.sv) && IsStamped(s, pc.slot.sv))
    && BeganAt(pc) <= s.number && FreshFor(s, pc)
    && (InGet(pc) || pc.Began? ==> s.current.Some?)
    && (HoldsMutex(pc) <==> s.mutex == Reader(t))
    && (pc.Exiting? <==> s.tl == TlExit(t))
  }

  ghost predicate ThreadsOk(s: State)
  {
    && s.slots.Keys == s.pc.Keys
    && (forall t :: t in s.pc ==> ThreadOk(s, t))
    && (s.mutex.Reader? ==> s.mutex.t in s.pc)
    && (s.tl.TlExit? ==> s.tl.t in s.pc)
  }

  predicate NextOk(s: State, next: Sv, prior: Option<Sv>)
  {
    s.current == Some(next) && next !in s.version && prior != Some(next) && (prior.Some? ==> IsStamped(s, prior.value))
  }

  ghost predicate TakenOk(s: State, prior: Sv, taken: map<Thread, Slot>)
  {
    forall t :: t in taken ==>
      taken[t].InUse? || taken[t] == Cached(prior) || (taken[t].Cached? && s.current == Some(taken[t].sv))
  }

  ghost predicate InstallOk(s: State)
  {
    && (s.mutex == Installer <==> s.install != NoInstall)
    && (s.tl == TlScrape <==> s.install.Scraping?)
    && (s.current.Some? && !s.install.Published? && !s.install.Numbered? ==>
          s.current.value in s.version && s.version[s.current.value] == s.number)
    && (s.current.None? ==> s.install.NoInstall? || s.install.Created?)
    && (match s.install
        case Created(next) => next !in s.version && s.current != Some(next)
        case Published(next, prior) => NextOk(s, next, prior)
        case Numbered(next, prior) => NextOk(s, next, prior)
        case Stamped(prior) => s.current != Some(prior) && IsStamped(s, prior)
        case Scraping(prior, todo, taken) =>
          s.current != Some(prior) && TakenOk(s, prior, taken) && todo <= s.slots.Keys
                                           && todo !! taken.Keys
        case Unreffing(prior, taken) => s.current != Some(prior) && TakenOk(s, prior, taken)
        case _ => true)
  }

  ghost predicate Inv(s: State)
  {
    && s.refs.Keys == s.cleanups.Keys && s.version.Keys <= s.refs.Keys
    && (forall sv :: Balanced(s, sv))
    && ThreadsOk(s)
    && InstallOk(s)
  }

  ghost predicate Keeps(o: Outcome)
  {
    !o.Fails? && (o.Ok? ==> Inv(o.s))
  }

  // ----- steps of one thread

  function SlotHeld(s: State, t: Thread, sv: Sv): nat
  {
    One(t in s.slots && s.slots[t] == Cached(sv))
  }

  function PcHeld(s: State, t: Thread, sv: Sv): nat
  {
    One(t in s.pc && HoldsOneAt(s.pc[t], sv)) + One(t in s.pc && HoldsTwoAt(s.pc[t], sv))
  }

  function PcCleans(s: State, t: Thread, sv: Sv): nat
  {
    One(t in s.pc && CleansAt(s.pc[t], sv))
  }

  /** `s'` differs from `s` only where a step of `t` may change it. */
  predicate OnlyThread(s: State, s': State, t: Thread)
  {
    && At(s', t)
    && s'.slots == s.slots[t := s'.slots[t]] && s'.pc == s.pc[t := s'.pc[t]]
    && s'.current == s.current && s'.number == s.number && s'.version == s.version && s'.install == s.install
    && s'.refs.Keys == s.refs.Keys && s'.cleanups.Keys == s.cleanups.Keys
  }

  /** What `t` gains or loses is what the counters gain or lose. */
  predicate Settled(s: State, s': State, t: Thread, sv: Sv)
    requires s'.refs.Keys == s.refs.Keys && s'.cleanups.Keys == s.cleanups.Keys
  {
    var before := SlotHeld(s, t, sv) + PcHeld(s, t, sv) + s.pins[sv];
    var after := SlotHeld(s', t, sv) + PcHeld(s', t, sv) + s'.pins[sv];
    if sv in s.refs && sv in s.cleanups then
      && s'.refs[sv] + before == s.refs[sv] + after
      && s'.cleanups[sv] + PcCleans(s', t, sv) + One(s.refs[sv] == 0)
         == s.cleanups[sv] + PcCleans(s, t, sv) + One(s'.refs[sv] == 0)
    else
      after == before && PcCleans(s', t, sv) == PcCleans(s, t, sv)
  }

  lemma ThreadBalanced(s: State, s': State, t: Thread, sv: Sv)
    requires OnlyThread(s, s', t) && Settled(s, s', t, sv) && Balanced(s, sv)
    ensures Balanced(s', sv)
  {
    hide Count;
    CountPut(s.slots, t, s'.slots[t], SlotIs(sv));
    CountPut(s.pc, t, s'.pc[t], HoldsOne(sv));
    CountPut(s.pc, t, s'.pc[t], HoldsTwo(sv));
    CountPut(s.pc, t, s'.pc[t], Cleans(sv));
  }

  /** A lock passes between nobody and `t`, or stays where it is. */
  predicate LocksMove(s: State, s': State, t: Thread)
  {
    && (s'.mutex == s.mutex || (s.mutex in {Free, Reader(t)} && s'.mutex in {Free, Reader(t)}))
    && (s'.tl == s.tl || (s.tl in {TlFree, TlExit(t)} && s'.tl in {TlFree, TlExit(t)}))
  }

  lemma ThreadStep(s: State, s': State, t: Thread)
    requires Inv(s) && OnlyThread(s, s', t) && LocksMove(s, s', t)
    requires ThreadOk(s', t)
    requires forall sv :: Settled(s, s', t, sv)
    ensures Inv(s')
  {
    forall sv ensures Balanced(s', sv) {
      ThreadBalanced(s, s', t, sv);
    }
    forall u | u in s'.pc ensures ThreadOk(s', u) {
      if u != t {
        assert ThreadOk(s, u);
      }
    }
  }

  lemma HoldingCounted(s: State, t: Thread, sv: Sv)
    ensures One(s.current == Some(sv)) + One(InstallRef(s.install) == Some(sv)) + SlotHeld(s, t, sv)
            + PcHeld(s, t, sv) + Had(Taken(s.install), t, SlotIs(sv)) <= Holders(s, sv)
    ensures PcCleans(s, t, sv) + One(s.install == CleanOld(sv)) <= Cleaners(s, sv)
  {
    hide Count;
    HadCounted(s.slots, t, SlotIs(sv));
    HadCounted(Taken(s.install), t, SlotIs(sv));
    HadCounted(s.pc, t, HoldsOne(sv));
    HadCounted(s.pc, t, HoldsTwo(sv));
    HadCounted(s.pc, t, Cleans(sv));
  }

  /** Who holds keeps alive, who owes a cleanup finds nothing held. */
  lemma Holding(s: State, t: Thread, sv: Sv)
    requires Inv(s)
    ensures One(s.current == Some(sv)) + One(InstallRef(s.install) == Some(sv)) + SlotHeld(s, t, sv)
            + PcHeld(s, t, sv) + Had(Taken(s.install), t, SlotIs(sv)) <= Holders(s, sv)
    ensures Holders(s, sv) > 0 ==> CanUnref(s, sv) && s.refs[sv] == Holders(s, sv)
    ensures PcCleans(s, t, sv) > 0 || s.install == CleanOld(sv) ==> CanCleanup(s, sv)
  {
    assert Balanced(s, sv) && s.refs.Keys == s.cleanups.Keys;
    HoldingCounted(s, t, sv);
  }

  lemma InvAt(s: State, t: Thread)
    requires Inv(s)
    ensures (t in s.pc <==> t in s.slots) && (At(s, t) ==> ThreadOk(s, t))
    ensures s.refs.Keys == s.cleanups.Keys && InstallOk(s)
    ensures s.mutex == Reader(t) || s.tl == TlExit(t) ==> t in s.pc
  {
  }

  lemma KeepsRegister(s: State, t: Thread)
    requires Inv(s)
    ensures Keeps(Register(s, t))
  {
    hide Inv, Holders, Had;
    InvAt(s, t);
    var o := Register(s, t);
    if o.Ok? {
      ThreadStep(s, o.s, t);
    }
  }

  lemma KeepsBeginGet(s: State, t: Thread)
    requires Inv(s)
    ensures Keeps(BeginGet(s, t))
  {
    hide Inv, Holders, Had;
    InvAt(s, t);
    var o := BeginGet(s, t);
    if o.Ok? {
      ThreadStep(s, o.s, t);
    }
  }

  lemma KeepsSwap(s: State, t: Thread)
    requires Inv(s)
    ensures Keeps(Swap(s, t))
  {
    hide Inv, Holders, Had;
    InvAt(s, t);
    var o := Swap(s, t);
    if !o.Disabled? {
      ThreadStep(s, o.s, t);
    }
  }

  lemma KeepsCheckObsolete(s: State, t: Thread)
    requires Inv(s) && At(s, t) && s.pc[t].Swapped? && !s.pc[t].got.Cached?
    ensures Keeps(Check(s, t))
  {
    hide Inv, Holders, Had;
    InvAt(s, t);
    ThreadStep(s, Go(s, t, NeedLock(s.pc[t].began, None)), t);
  }

  lemma KeepsCheckCached(s: State, t: Thread)
    requires Inv(s) && At(s, t) && s.pc[t].Swapped? && s.pc[t].got.Cached?
    ensures Keeps(Check(s, t))
  {
    hide Inv, Holders, Had;
    InvAt(s, t);
    var began, sv := s.pc[t].began, s.pc[t].got.sv;
    Holding(s, t, sv);
    ThreadStep(s, Go(s, t, if s.version[sv] == s.number then Using(began, sv) else Stale(began, sv)), t);
  }

  lemma KeepsCheck(s: State, t: Thread)
    requires Inv(s)
    ensures Keeps(Check(s, t))
  {
    hide Inv, Holders, Had, ThreadOk, InstallOk;
    InvAt(s, t);
    if At(s, t) && s.pc[t].Swapped? {
      if s.pc[t].got.Cached? {
        KeepsCheckCached(s, t);
      } else {
        KeepsCheckObsolete(s, t);
      }
    }
  }

  lemma KeepsUnrefStale(s: State, t: Thread)
    requires Inv(s)
    ensures Keeps(UnrefStale(s, t))
  {
    hide Inv, Holders, Had;
    InvAt(s, t);
    var o := UnrefStale(s, t);
    if !o.Disabled? {
      Holding(s, t, s.pc[t].sv);
      ThreadStep(s, o.s, t);
    }
  }

  lemma KeepsLock(s: State, t: Thread)
    requires Inv(s)
    ensures Keeps(Lock(s, t))
  {
    hide Inv, Holders, Had;
    InvAt(s, t);
    var o := Lock(s, t);
    if o.Ok? {
      ThreadStep(s, o.s, t);
    }
  }

  lemma KeepsCleanupStale(s: State, t: Thread)
    requires Inv(s)
    ensures Keeps(CleanupStale(s, t))
  {
    hide Inv, Holders, Had;
    InvAt(s, t);
    var o := CleanupStale(s, t);
    if !o.Disabled? {
      if s.pc[t].dead.Some? {
        Holding(s, t, s.pc[t].dead.value);
      }
      ThreadStep(s, o.s, t);
    }
  }

  lemma KeepsRefCurrent(s: State, t: Thread)
    requires Inv(s)
    ensures Keeps(RefCurrent(s, t))
  {
    hide Inv, Holders, Had;
    InvAt(s, t);
    var o := RefCurrent(s, t);
    if !o.Disabled? {
      Holding(s, t, s.current.value);
      ThreadStep(s, o.s, t);
    }
  }

  lemma KeepsUnlock(s: State, t: Thread)
    requires Inv(s)
    ensures Keeps(Unlock(s, t))
  {
    hide Inv, Holders, Had;
    InvAt(s, t);
    var o := Unlock(s, t);
    if o.Ok? {
      ThreadStep(s, o.s, t);
    }
  }

  lemma KeepsReturn(s: State, t: Thread)
    requires Inv(s)
    ensures Keeps(Return(s, t))
  {
    hide Inv, Holders, Had;
    InvAt(s, t);
    var o := Return(s, t);
    if !o.Disabled? {
      ThreadStep(s, o.s, t);
    }
  }

  lemma KeepsPin(s: State, t: Thread)
    requires Inv(s)
    ensures Keeps(Pin(s, t))
  {
    hide Inv, Holders, Had;
    InvAt(s, t);
    var o := Pin(s, t);
    if !o.Disabled? {
      Holding(s, t, s.pc[t].sv);
      ThreadStep(s, o.s, t);
    }
  }

  lemma KeepsPinReturn(s: State, t: Thread)
    requires Inv(s)
    ensures Keeps(PinReturn(s, t))
  {
    hide Inv, Holders, Had;
    InvAt(s, t);
    var o := PinReturn(s, t);
    if !o.Disabled? {
      ThreadStep(s, o.s, t);
    }
  }

  lemma KeepsPinUnref(s: State, t: Thread)
    requires Inv(s)
    ensures Keeps(PinUnref(s, t))
  {
    hide Inv, Holders, Had;
    InvAt(s, t);
    var o := PinUnref(s, t);
    if !o.Disabled? {
      Holding(s, t, s.pc[t].sv);
      ThreadStep(s, o.s, t);
    }
  }

  lemma KeepsUnpin(s: State, t: Thread, sv: Sv)
    requires Inv(s)
    ensures Keeps(Unpin(s, t, sv))
  {
    hide Inv, Holders, Had;
    InvAt(s, t);
    var o := Unpin(s, t, sv);
    if o.Ok? {
      ThreadStep(s, o.s, t);
    }
  }

  lemma KeepsUnrefDropped(s: State, t: Thread)
    requires Inv(s)
    ensures Keeps(UnrefDropped(s, t))
  {
    hide Inv, Holders, Had;
    InvAt(s, t);
    var o := UnrefDropped(s, t);
    if !o.Disabled? {
      Holding(s, t, s.pc[t].sv);
      ThreadStep(s, o.s, t);
    }
  }

  lemma KeepsCleanLock(s: State, t: Thread)
    requires Inv(s)
    ensures Keeps(CleanLock(s, t))
  {
    hide Inv, Holders, Had;
    InvAt(s, t);
    var o := CleanLock(s, t);
    if o.Ok? {
      ThreadStep(s, o.s, t);
    }
  }

  lemma KeepsCleanup(s: State, t: Thread)
    requires Inv(s)
    ensures Keeps(Cleanup(s, t))
  {
    hide Inv, Holders, Had;
    InvAt(s, t);
    var o := Cleanup(s, t);
    if !o.Disabled? {
      Holding(s, t, s.pc[t].sv);
      ThreadStep(s, o.s, t);
    }
  }

  lemma KeepsUnlockCleaned(s: State, t: Thread)
    requires Inv(s)
    ensures Keeps(UnlockCleaned(s, t))
  {
    hide Inv, Holders, Had;
    InvAt(s, t);
    var o := UnlockCleaned(s, t);
    if o.Ok? {
      ThreadStep(s, o.s, t);
    }
  }

  lemma KeepsExitBegin(s: State, t: Thread)
    requires Inv(s)
    ensures Keeps(ExitBegin(s, t))
  {
    hide Inv, Holders, Had;
    InvAt(s, t);
    var o := ExitBegin(s, t);
    if o.Ok? {
      ThreadStep(s, o.s, t);
    }
  }

  /** A thread-local SuperVersion cannot outlive super_version_ or the installer. */
  lemma ExitNotLast(s: State, t: Thread)
    requires Inv(s) && At(s, t) && s.pc[t].Exiting? && s.pc[t].slot.Cached?
    ensures CanUnref(s, s.pc[t].slot.sv) && s.refs[s.pc[t].slot.sv] > 1
  {
    hide Inv, Had;
    InvAt(s, t);
    Holding(s, t, s.pc[t].slot.sv);
  }

  lemma KeepsExitUnref(s: State, t: Thread)
    requires Inv(s)
    ensures Keeps(ExitUnref(s, t))
  {
    hide Inv, Holders, Had, InstallOk;
    InvAt(s, t);
    if At(s, t) && s.pc[t].Exiting? {
      if s.pc[t].slot.Cached? {
        ExitNotLast(s, t);
      }
      ThreadStep(s, ExitUnref(s, t).s, t);
    }
  }

  // ----- steps of the installer

  /** Nothing a thread relies on is taken away. */
  ghost predicate Supports(s: State, s': State)
  {
    && s'.slots == s.slots && s'.pc == s.pc
    && s.number <= s'.number && (forall sv :: sv in s.version ==> sv in s'.version && s'.version[sv] == s.version[sv])
    && (s.current.Some? ==> s'.current.Some?)
    && (s'.mutex == s.mutex || (!s.mutex.Reader? && !s'.mutex.Reader?))
    && (s'.tl == s.tl || (!s.tl.TlExit? && !s'.tl.TlExit?))
    && (forall t, sv :: t in s.pc && Cacheable(s, t, sv) ==> Cacheable(s', t, sv))
  }

  lemma ThreadsCarried(s: State, s': State)
    requires ThreadsOk(s) && Supports(s, s')
    ensures ThreadsOk(s')
  {
    forall t | t in s'.pc ensures ThreadOk(s', t) {
      assert ThreadOk(s, t);
    }
  }

  lemma KeepsInstallStart(s: State, next: Sv)
    requires Inv(s)
    ensures Keeps(InstallStart(s, next))
  {
    hide Count, ThreadOk;
    var o := InstallStart(s, next);
    if o.Ok? {
      forall sv ensures Balanced(o.s, sv) {
        assert Balanced(s, sv);
      }
      ThreadsCarried(s, o.s);
    }
  }

  lemma KeepsPublish(s: State)
    requires Inv(s)
    ensures Keeps(Publish(s))
  {
    hide Count, ThreadOk;
    var o := Publish(s);
    if o.Ok? {
      forall sv ensures Balanced(o.s, sv) {
        assert Balanced(s, sv);
      }
      ThreadsCarried(s, o.s);
    }
  }

  lemma KeepsBump(s: State)
    requires Inv(s)
    ensures Keeps(Bump(s))
  {
    hide Count, ThreadOk;
    var o := Bump(s);
    if o.Ok? {
      forall sv ensures Balanced(o.s, sv) {
        assert Balanced(s, sv);
      }
      ThreadsCarried(s, o.s);
    }
  }

  lemma KeepsStamp(s: State)
    requires Inv(s)
    ensures Keeps(Stamp(s))
  {
    hide Count, ThreadOk;
    var o := Stamp(s);
    if o.Ok? {
      assert s.install.next in s.refs by {
        Holding(s, 0, s.install.next);
      }
      forall sv ensures Balanced(o.s, sv) {
        assert Balanced(s, sv);
      }
      ThreadsCarried(s, o.s);
    }
  }

  lemma KeepsScrapeBegin(s: State)
    requires Inv(s)
    ensures Keeps(ScrapeBegin(s))
  {
    var o := ScrapeBegin(s);
    if o.Ok? {
      forall sv ensures Balanced(o.s, sv) {
        assert Balanced(s, sv);
      }
      ThreadsCarried(s, o.s);
    }
  }

  lemma ScrapeBalanced(s: State, t: Thread, sv: Sv)
    requires Balanced(s, sv) && ScrapeOne(s, t).Ok? && t !in s.install.taken
    ensures Balanced(ScrapeOne(s, t).s, sv)
  {
    hide Count;
    CountPut(s.slots, t, Obsolete, SlotIs(sv));
    CountPut(s.install.taken, t, s.slots[t], SlotIs(sv));
  }

  lemma KeepsScrapeOne(s: State, t: Thread)
    requires Inv(s)
    ensures Keeps(ScrapeOne(s, t))
  {
    hide Balanced;
    var o := ScrapeOne(s, t);
    if o.Ok? {
      assert ThreadOk(s, t);
      forall sv ensures Balanced(o.s, sv) {
        ScrapeBalanced(s, t, sv);
      }
      forall u | u in o.s.pc ensures ThreadOk(o.s, u) {
        assert ThreadOk(s, u);
      }
    }
  }

  lemma KeepsScrapeEnd(s: State)
    requires Inv(s)
    ensures Keeps(ScrapeEnd(s))
  {
    hide Count, ThreadOk;
    var o := ScrapeEnd(s);
    if o.Ok? {
      forall sv ensures Balanced(o.s, sv) {
        assert Balanced(s, sv);
      }
      ThreadsCarried(s, o.s);
    }
  }

  /** The scrape never drops the last reference: super_version_ or the installer
      still holds what it took out of a slot. */
  lemma TakenNotLast(s: State, t: Thread)
    requires Inv(s) && s.install.Unreffing? && t in s.install.taken && s.install.taken[t].Cached?
    ensures CanUnref(s, s.install.taken[t].sv) && s.refs[s.install.taken[t].sv] > 1
  {
    hide Inv, Holders;
    InvAt(s, t);
    Holding(s, t, s.install.taken[t].sv);
  }

  lemma TakenBalanced(s: State, t: Thread, sv: Sv)
    requires Balanced(s, sv) && UnrefTaken(s, t).Ok?
    ensures Balanced(UnrefTaken(s, t).s, sv)
  {
    hide Count, ThreadOk;
    CountRemove(s.install.taken, t, SlotIs(sv));
  }

  lemma KeepsUnrefTaken(s: State, t: Thread)
    requires Inv(s)
    ensures Keeps(UnrefTaken(s, t))
  {
    hide Balanced, ThreadOk;
    if s.install.Unreffing? && t in s.install.taken {
      if s.install.taken[t].Cached? {
        TakenNotLast(s, t);
      }
      var s' := UnrefTaken(s, t).s;
      forall sv ensures Balanced(s', sv) {
        TakenBalanced(s, t, sv);
      }
      ThreadsCarried(s, s');
    }
  }

  lemma KeepsDropOld(s: State)
    requires Inv(s)
    ensures Keeps(DropOld(s))
  {
    hide Count, ThreadOk;
    var o := DropOld(s);
    if !o.Disabled? {
      Holding(s, 0, s.install.prior);
      forall sv ensures Balanced(o.s, sv) {
        assert Balanced(s, sv);
      }
      ThreadsCarried(s, o.s);
    }
  }

  lemma KeepsCleanupOld(s: State)
    requires Inv(s)
    ensures Keeps(CleanupOld(s))
  {
    hide Count, ThreadOk;
    var o := CleanupOld(s);
    if !o.Disabled? {
      Holding(s, 0, s.install.prior);
      forall sv ensures Balanced(o.s, sv) {
        assert Balanced(s, sv);
      }
      ThreadsCarried(s, o.s);
    }
  }

  lemma KeepsInstallEnd(s: State)
    requires Inv(s)
    ensures Keeps(InstallEnd(s))
  {
    hide Count, ThreadOk;
    var o := InstallEnd(s);
    if o.Ok? {
      forall sv ensures Balanced(o.s, sv) {
        assert Balanced(s, sv);
      }
      ThreadsCarried(s, o.s);
    }
  }

  // ----- all runs

  lemma KeepsReader(s: State, a: Action)
    requires Inv(s)
    requires !a.AInstallStart? && !a.APublish? && !a.ABump? && !a.AStamp? && !a.AScrapeBegin? && !a.AScrapeOne?
    requires !a.AScrapeEnd? && !a.AUnrefTaken? && !a.ADropOld? && !a.ACleanupOld? && !a.AInstallEnd?
    ensures Keeps(Do(s, a))
  {
    hide Inv, Keeps;
    hide Register, BeginGet, Swap, Check, UnrefStale, Lock, CleanupStale, RefCurrent, Unlock, Return;
    hide Pin, PinReturn, PinUnref, Unpin, UnrefDropped, CleanLock, Cleanup, UnlockCleaned, ExitBegin, ExitUnref;
    match a
    case ARegister(t) => KeepsRegister(s, t);
    case ABeginGet(t) => KeepsBeginGet(s, t);
    case ASwap(t) => KeepsSwap(s, t);
    case ACheck(t) => KeepsCheck(s, t);
    case AUnrefStale(t) => KeepsUnrefStale(s, t);
    case ALock(t) => KeepsLock(s, t);
    case ACleanupStale(t) => KeepsCleanupStale(s, t);
    case ARefCurrent(t) => KeepsRefCurrent(s, t);
    case AUnlock(t) => KeepsUnlock(s, t);
    case AReturn(t) => KeepsReturn(s, t);
    case APin(t) => KeepsPin(s, t);
    case APinReturn(t) => KeepsPinReturn(s, t);
    case APinUnref(t) => KeepsPinUnref(s, t);
    case AUnpin(t, sv) => KeepsUnpin(s, t, sv);
    case AUnrefDropped(t) => KeepsUnrefDropped(s, t);
    case ACleanLock(t) => KeepsCleanLock(s, t);
    case ACleanup(t) => KeepsCleanup(s, t);
    case AUnlockCleaned(t) => KeepsUnlockCleaned(s, t);
    case AExitBegin(t) => KeepsExitBegin(s, t);
    case AExitUnref(t) => KeepsExitUnref(s, t);
  }

  lemma StepKeeps(s: State, a: Action)
    requires Inv(s)
    ensures Keeps(Do(s, a))
  {
    hide Inv, Keeps;
    hide Register, BeginGet, Swap, Check, UnrefStale, Lock, CleanupStale, RefCurrent, Unlock, Return;
    hide Pin, PinReturn, PinUnref, Unpin, UnrefDropped, CleanLock, Cleanup, UnlockCleaned, ExitBegin, ExitUnref;
    hide InstallStart, Publish, Bump, Stamp, ScrapeBegin, ScrapeOne, ScrapeEnd, UnrefTaken, DropOld;
    hide CleanupOld, InstallEnd;
    match a
    case AInstallStart(next) => KeepsInstallStart(s, next);
    case APublish => KeepsPublish(s);
    case ABump => KeepsBump(s);
    case AStamp => KeepsStamp(s);
    case AScrapeBegin => KeepsScrapeBegin(s);
    case AScrapeOne(t) => KeepsScrapeOne(s, t);
    case AScrapeEnd => KeepsScrapeEnd(s);
    case AUnrefTaken(t) => KeepsUnrefTaken(s, t);
    case ADropOld => KeepsDropOld(s);
    case ACleanupOld => KeepsCleanupOld(s);
    case AInstallEnd => KeepsInstallEnd(s);
    case _ => KeepsReader(s, a);
  }

  lemma InitialInv()
    ensures Inv(INITIAL)
  {
  }

  lemma {:induction false} RunKeeps(actions: seq<Action>)
    ensures match Run(actions) case Some(s) => Inv(s) case None => true
  {
    hide Inv;
    if actions == [] {
      InitialInv();
    } else {
      var before := actions[..|actions| - 1];
      RunKeeps(before);
      if Run(before).Some? {
        StepKeeps(Run(before).value, actions[|actions| - 1]);
      }
    }
  }

  /** In every interleaving, each SuperVersion's count is the number of its
      holders; it is cleaned up at most once, and never while it is held; and
      once nobody holds it, it has been cleaned up or exactly one thread is about
      to. No assertion of the code ever fails. */
  lemma CountsAreHolders(actions: seq<Action>, s: State, sv: Sv)
    requires Run(actions) == Some(s) && sv in s.refs
    ensures s.refs[sv] == Holders(s, sv)
    ensures sv in s.cleanups && s.cleanups[sv] <= 1
    ensures Holders(s, sv) > 0 ==> s.cleanups[sv] == 0 && Cleaners(s, sv) == 0
    ensures Holders(s, sv) == 0 ==> s.cleanups[sv] + Cleaners(s, sv) == 1
    ensures forall a :: !Do(s, a).Fails?
  {
    RunKeeps(actions);
    assert Balanced(s, sv);
    forall a ensures !Do(s, a).Fails? {
      StepKeeps(s, a);
    }
  }

  /** A reader holds a SuperVersion at least as new as the number when its Get
      began, and a slot holds the current one or, until an install that has
      published its successor scrapes the slot, its predecessor. */
  lemma Freshness(actions: seq<Action>, s: State, t: Thread)
    requires Run(actions) == Some(s) && t in s.pc
    ensures s.pc[t].Using? ==> s.pc[t].sv in s.version && s.pc[t].began <= s.version[s.pc[t].sv] <= s.number
    ensures t in s.slots
    ensures s.slots[t].Cached? ==> Cacheable(s, t, s.slots[t].sv)
  {
    RunKeeps(actions);
    assert ThreadOk(s, t);
  }
}
