/** The thread-local SuperVersion protocol as interleaved atomic steps of any
    number of reader threads, thread exits and one installer at a time (the
    installer works under the DB mutex). Every assertion of the code, and every
    access to a SuperVersion that has been cleaned up, is a `Fails` outcome. */
module SuperVersions {
  import opened Records

  type Thread = nat
  type Sv = nat

  /** One thread's local_sv_ slot: kSVObsolete, kSVInUse or a SuperVersion. */
  datatype Slot = Obsolete | InUse | Cached(sv: Sv)

  /** Where a thread stands. `began` is super_version_number_ at the call of
      GetThreadLocalSuperVersion; it is carried along only to state freshness. */
  datatype Pc =
    | Idle
    | Began(began: nat)
    | Swapped(began: nat, got: Slot)
    | Stale(began: nat, sv: Sv)
    | NeedLock(began: nat, dead: Option<Sv>)
    | Locked(began: nat, dead: Option<Sv>)
    | Referring(began: nat)
    | Unlocking(began: nat, sv: Sv)
    | Using(began: nat, sv: Sv)
    | Pinning(sv: Sv)
    | PinDrop(sv: Sv)
    | Dropping(sv: Sv)
    | CleanWait(sv: Sv)
    | Cleaning(sv: Sv)
    | CleanUnlock
    | Exiting(slot: Slot)
    | Ended

  /** Where InstallSuperVersion stands; `prior` is the SuperVersion it replaces. */
  datatype Install =
    | NoInstall
    | Created(next: Sv)
    | Published(next: Sv, replaced: Option<Sv>)
    | Numbered(next: Sv, replaced: Option<Sv>)
    | Stamped(prior: Sv)
    | Scraping(prior: Sv, todo: set<Thread>, taken: map<Thread, Slot>)
    | Unreffing(prior: Sv, taken: map<Thread, Slot>)
    | CleanOld(prior: Sv)
    | Finishing

  datatype Owner = Free | Reader(t: Thread) | Installer
  datatype TlOwner = TlFree | TlExit(t: Thread) | TlScrape

  datatype State = State(
    current: Option<Sv>,
    number: nat,
    version: map<Sv, nat>,
    refs: map<Sv, nat>,
    cleanups: map<Sv, nat>,
    slots: map<Thread, Slot>,
    pc: map<Thread, Pc>,
    pins: multiset<Sv>,
    mutex: Owner,
    tl: TlOwner,
    install: Install)

  datatype Outcome = Disabled | Fails | Ok(s: State)

  predicate At(s: State, t: Thread)
  {
    t in s.pc && t in s.slots
  }

  function Go(s: State, t: Thread, pc: Pc): State
  {
    s.(pc := s.pc[t := pc])
  }

  predicate Alive(s: State, sv: Sv)
  {
    sv in s.refs && sv in s.cleanups && s.cleanups[sv] == 0
  }

  /** SuperVersion::Ref */
  function Ref(s: State, sv: Sv): State
    requires sv in s.refs
  {
    s.(refs := s.refs[sv := s.refs[sv] + 1])
  }

  /** SuperVersion::Unref, which asserts that there was a reference. */
  function Unref(s: State, sv: Sv): State
    requires sv in s.refs && s.refs[sv] > 0
  {
    s.(refs := s.refs[sv := s.refs[sv] - 1])
  }

  predicate CanUnref(s: State, sv: Sv)
  {
    Alive(s, sv) && s.refs[sv] > 0
  }

  /** SuperVersion::Cleanup, which asserts that no reference is left. */
  predicate CanCleanup(s: State, sv: Sv)
  {
    Alive(s, sv) && s.refs[sv] == 0
  }

  function Cleaned(s: State, sv: Sv): State
    requires sv in s.cleanups
  {
    s.(cleanups := s.cleanups[sv := s.cleanups[sv] + 1])
  }

  // ----- readers

  /** A thread touches its slot for the first time (registration is under the
      ThreadLocalPtr mutex); the slot starts as nullptr. */
  function Register(s: State, t: Thread): Outcome
  {
    if t in s.pc || t in s.slots || s.tl != TlFree then Disabled
    else Ok(s.(pc := s.pc[t := Idle], slots := s.slots[t := Obsolete]))
  }

  function BeginGet(s: State, t: Thread): Outcome
  {
    if !(At(s, t) && s.pc[t].Idle? && s.current.Some?) then Disabled
    else Ok(Go(s, t, Began(s.number)))
  }

  /** ptr = local_sv_->Swap(kSVInUse) */
  function Swap(s: State, t: Thread): Outcome
  {
    if !(At(s, t) && s.pc[t].Began?) then Disabled
    else if s.slots[t].InUse? then Fails
    else Ok(Go(s, t, Swapped(s.pc[t].began, s.slots[t])).(slots := s.slots[t := InUse]))
  }

  /** sv == kSVObsolete || sv->version_number != super_version_number_ */
  function Check(s: State, t: Thread): Outcome
  {
    if !(At(s, t) && s.pc[t].Swapped?) then Disabled
    else
      var began := s.pc[t].began;
      match s.pc[t].got
      case InUse => Fails
      case Obsolete => Ok(Go(s, t, NeedLock(began, None)))
      case Cached(sv) =>
        if !Alive(s, sv) || sv !in s.version then Fails
        else if s.version[sv] == s.number then Ok(Go(s, t, Using(began, sv)))
        else Ok(Go(s, t, Stale(began, sv)))
  }

  function UnrefStale(s: State, t: Thread): Outcome
  {
    if !(At(s, t) && s.pc[t].Stale?) then Disabled
    else
      var sv := s.pc[t].sv;
      if !CanUnref(s, sv) then Fails
      else Ok(Go(Unref(s, sv), t, NeedLock(s.pc[t].began, if s.refs[sv] == 1 then Some(sv) else None)))
  }

  function Lock(s: State, t: Thread): Outcome
  {
    if !(At(s, t) && s.pc[t].NeedLock? && s.mutex == Free) then Disabled
    else Ok(Go(s, t, Locked(s.pc[t].began, s.pc[t].dead)).(mutex := Reader(t)))
  }

  function CleanupStale(s: State, t: Thread): Outcome
  {
    if !(At(s, t) && s.pc[t].Locked?) then Disabled
    else match s.pc[t].dead
      case None => Ok(Go(s, t, Referring(s.pc[t].began)))
      case Some(sv) =>
        if !CanCleanup(s, sv) then Fails
        else Ok(Go(Cleaned(s, sv), t, Referring(s.pc[t].began)))
  }

  /** sv = super_version_->Ref() */
  function RefCurrent(s: State, t: Thread): Outcome
  {
    if !(At(s, t) && s.pc[t].Referring?) then Disabled
    else if s.current.None? || !Alive(s, s.current.value) then Fails
    else Ok(Go(Ref(s, s.current.value), t, Unlocking(s.pc[t].began, s.current.value)))
  }

  function Unlock(s: State, t: Thread): Outcome
  {
    if !(At(s, t) && s.pc[t].Unlocking?) then Disabled
    else Ok(Go(s, t, Using(s.pc[t].began, s.pc[t].sv)).(mutex := Free))
  }

  /** ReturnThreadLocalSuperVersion: CompareAndSwap(kSVInUse -> sv); on failure
      ReturnAndCleanupSuperVersion goes on to CleanupSuperVersion. */
  function Return(s: State, t: Thread): Outcome
  {
    if !(At(s, t) && s.pc[t].Using?) then Disabled
    else match s.slots[t]
      case InUse => Ok(Go(s, t, Idle).(slots := s.slots[t := Cached(s.pc[t].sv)]))
      case Obsolete => Ok(Go(s, t, Dropping(s.pc[t].sv)))
      case Cached(_) => Fails
  }

  /** GetReferencedSuperVersion takes a second reference for its caller... */
  function Pin(s: State, t: Thread): Outcome
  {
    if !(At(s, t) && s.pc[t].Using?) then Disabled
    else if !Alive(s, s.pc[t].sv) then Fails
    else Ok(Go(Ref(s, s.pc[t].sv), t, Pinning(s.pc[t].sv)))
  }

  /** ...puts the SuperVersion back... */
  function PinReturn(s: State, t: Thread): Outcome
  {
    if !(At(s, t) && s.pc[t].Pinning?) then Disabled
    else
      var sv := s.pc[t].sv;
      match s.slots[t]
      case InUse => Ok(Go(s, t, Idle).(slots := s.slots[t := Cached(sv)], pins := s.pins + multiset{sv}))
      case Obsolete => Ok(Go(s, t, PinDrop(sv)))
      case Cached(_) => Fails
  }

  /** ...or drops the slot's reference, which is never the last one. */
  function PinUnref(s: State, t: Thread): Outcome
  {
    if !(At(s, t) && s.pc[t].PinDrop?) then Disabled
    else
      var sv := s.pc[t].sv;
      if !CanUnref(s, sv) || s.refs[sv] == 1 then Fails
      else Ok(Go(Unref(s, sv), t, Idle).(pins := s.pins + multiset{sv}))
  }

  /** CleanupSuperVersion on a SuperVersion from GetReferencedSuperVersion. */
  function Unpin(s: State, t: Thread, sv: Sv): Outcome
  {
    if !(At(s, t) && s.pc[t].Idle? && sv in s.pins) then Disabled
    else Ok(Go(s, t, Dropping(sv)).(pins := s.pins - multiset{sv}))
  }

  function UnrefDropped(s: State, t: Thread): Outcome
  {
    if !(At(s, t) && s.pc[t].Dropping?) then Disabled
    else
      var sv := s.pc[t].sv;
      if !CanUnref(s, sv) then Fails
      else Ok(Go(Unref(s, sv), t, if s.refs[sv] == 1 then CleanWait(sv) else Idle))
  }

  function CleanLock(s: State, t: Thread): Outcome
  {
    if !(At(s, t) && s.pc[t].CleanWait? && s.mutex == Free) then Disabled
    else Ok(Go(s, t, Cleaning(s.pc[t].sv)).(mutex := Reader(t)))
  }

  function Cleanup(s: State, t: Thread): Outcome
  {
    if !(At(s, t) && s.pc[t].Cleaning?) then Disabled
    else if !CanCleanup(s, s.pc[t].sv) then Fails
    else Ok(Go(Cleaned(s, s.pc[t].sv), t, CleanUnlock))
  }

  function UnlockCleaned(s: State, t: Thread): Outcome
  {
    if !(At(s, t) && s.pc[t].CleanUnlock?) then Disabled
    else Ok(Go(s, t, Idle).(mutex := Free))
  }

  /** OnThreadExit takes the ThreadLocalPtr mutex, unlinks the thread's data... */
  function ExitBegin(s: State, t: Thread): Outcome
  {
    if !(At(s, t) && s.pc[t].Idle? && s.tl == TlFree) then Disabled
    else Ok(Go(s, t, Exiting(s.slots[t])).(slots := s.slots[t := Obsolete], tl := TlExit(t)))
  }

  /** ...and calls SuperVersionUnrefHandle, which must not drop the last reference. */
  function ExitUnref(s: State, t: Thread): Outcome
  {
    if !(At(s, t) && s.pc[t].Exiting?) then Disabled
    else match s.pc[t].slot
      case InUse => Fails
      case Obsolete => Ok(Go(s, t, Ended).(tl := TlFree))
      case Cached(sv) =>
        if !CanUnref(s, sv) || s.refs[sv] == 1 then Fails
        else Ok(Go(Unref(s, sv), t, Ended).(tl := TlFree))
  }

  // ----- the installer

  /** Under the DB mutex: Init sets the reference count of the new one to 1. */
  function InstallStart(s: State, next: Sv): Outcome
  {
    if s.mutex != Free || next in s.refs || next in s.cleanups || next in s.version then Disabled
    else Ok(s.(mutex := Installer, install := Created(next),
               refs := s.refs[next := 1], cleanups := s.cleanups[next := 0]))
  }

  /** super_version_ = new_superversion */
  function Publish(s: State): Outcome
  {
    if !s.install.Created? then Disabled
    else Ok(s.(current := Some(s.install.next), install := Published(s.install.next, s.current)))
  }

  /** ++super_version_number_ */
  function Bump(s: State): Outcome
  {
    if !s.install.Published? then Disabled
    else Ok(s.(number := s.number + 1, install := Numbered(s.install.next, s.install.replaced)))
  }

  /** super_version_->version_number = super_version_number_ */
  function Stamp(s: State): Outcome
  {
    if !s.install.Numbered? then Disabled
    else Ok(s.(version := s.version[s.install.next := s.number],
               install := if s.install.replaced.None? then Finishing else Stamped(s.install.replaced.value)))
  }

  /** Scrape holds the ThreadLocalPtr mutex... */
  function ScrapeBegin(s: State): Outcome
  {
    if !(s.install.Stamped? && s.tl == TlFree) then Disabled
    else Ok(s.(install := Scraping(s.install.prior, s.slots.Keys, map[]), tl := TlScrape))
  }

  /** ...and exchanges one slot after the other for kSVObsolete. */
  function ScrapeOne(s: State, t: Thread): Outcome
  {
    if !(s.install.Scraping? && t in s.install.todo && t in s.slots) then Disabled
    else
      var taken := if s.slots[t].Obsolete? then s.install.taken else s.install.taken[t := s.slots[t]];
      Ok(s.(slots := s.slots[t := Obsolete], install := Scraping(s.install.prior, s.install.todo - {t}, taken)))
  }

  function ScrapeEnd(s: State): Outcome
  {
    if !(s.install.Scraping? && s.install.todo == {}) then Disabled
    else Ok(s.(install := Unreffing(s.install.prior, s.install.taken), tl := TlFree))
  }

  /** ResetThreadLocalSuperVersions drops what it scraped, never the last reference. */
  function UnrefTaken(s: State, t: Thread): Outcome
  {
    if !(s.install.Unreffing? && t in s.install.taken) then Disabled
    else
      var rest := s.(install := Unreffing(s.install.prior, s.install.taken - {t}));
      match s.install.taken[t]
      case Obsolete => Fails
      case InUse => Ok(rest)
      case Cached(sv) =>
        if !CanUnref(s, sv) || s.refs[sv] == 1 then Fails
        else Ok(Unref(rest, sv))
  }

  function DropOld(s: State): Outcome
  {
    if !(s.install.Unreffing? && s.install.taken == map[]) then Disabled
    else
      var prior := s.install.prior;
      if !CanUnref(s, prior) then Fails
      else Ok(Unref(s, prior).(install := if s.refs[prior] == 1 then CleanOld(prior) else Finishing))
  }

  function CleanupOld(s: State): Outcome
  {
    if !s.install.CleanOld? then Disabled
    else if !CanCleanup(s, s.install.prior) then Fails
    else Ok(Cleaned(s, s.install.prior).(install := Finishing))
  }

  function InstallEnd(s: State): Outcome
  {
    if !s.install.Finishing? then Disabled else Ok(s.(install := NoInstall, mutex := Free))
  }

  // ----- runs

  datatype Action =
    | ARegister(t: Thread) | ABeginGet(t: Thread) | ASwap(t: Thread) | ACheck(t: Thread) | AUnrefStale(t: Thread)
    | ALock(t: Thread) | ACleanupStale(t: Thread) | ARefCurrent(t: Thread) | AUnlock(t: Thread) | AReturn(t: Thread)
    | APin(t: Thread) | APinReturn(t: Thread) | APinUnref(t: Thread) | AUnpin(t: Thread, sv: Sv)
    | AUnrefDropped(t: Thread) | ACleanLock(t: Thread) | ACleanup(t: Thread) | AUnlockCleaned(t: Thread)
    | AExitBegin(t: Thread) | AExitUnref(t: Thread)
    | AInstallStart(next: Sv) | APublish | ABump | AStamp | AScrapeBegin | AScrapeOne(t: Thread) | AScrapeEnd
    | AUnrefTaken(t: Thread) | ADropOld | ACleanupOld | AInstallEnd

  function Do(s: State, a: Action): Outcome
  {
    match a
    case ARegister(t) => Register(s, t)
    case ABeginGet(t) => BeginGet(s, t)
    case ASwap(t) => Swap(s, t)
    case ACheck(t) => Check(s, t)
    case AUnrefStale(t) => UnrefStale(s, t)
    case ALock(t) => Lock(s, t)
    case ACleanupStale(t) => CleanupStale(s, t)
    case ARefCurrent(t) => RefCurrent(s, t)
    case AUnlock(t) => Unlock(s, t)
    case AReturn(t) => Return(s, t)
    case APin(t) => Pin(s, t)
    case APinReturn(t) => PinReturn(s, t)
    case APinUnref(t) => PinUnref(s, t)
    case AUnpin(t, sv) => Unpin(s, t, sv)
    case AUnrefDropped(t) => UnrefDropped(s, t)
    case ACleanLock(t) => CleanLock(s, t)
    case ACleanup(t) => Cleanup(s, t)
    case AUnlockCleaned(t) => UnlockCleaned(s, t)
    case AExitBegin(t) => ExitBegin(s, t)
    case AExitUnref(t) => ExitUnref(s, t)
    case AInstallStart(next) => InstallStart(s, next)
    case APublish => Publish(s)
    case ABump => Bump(s)
    case AStamp => Stamp(s)
    case AScrapeBegin => ScrapeBegin(s)
    case AScrapeOne(t) => ScrapeOne(s, t)
    case AScrapeEnd => ScrapeEnd(s)
    case AUnrefTaken(t) => UnrefTaken(s, t)
    case ADropOld => DropOld(s)
    case ACleanupOld => CleanupOld(s)
    case AInstallEnd => InstallEnd(s)
  }

  const INITIAL: State :=
    State(None, 0, map[], map[], map[], map[], map[], multiset{}, Free, TlFree, NoInstall)

  /** The state after an interleaving, if every step of it was enabled. */
  function Run(actions: seq<Action>): Option<State>
  {
    if actions == [] then Some(INITIAL)
    else match Run(actions[..|actions| - 1])
      case None => None
      case Some(s) =>
        match Do(s, actions[|actions| - 1])
        case Ok(s') => Some(s')
        case _ => None
  }
}
