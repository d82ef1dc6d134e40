/** `CompactionIterator`: the stateful rewriting of a sorted record stream. */
module CompactionIterators {
  import opened Records
  import opened DeeperLevels
  import opened CompactionSteps
  import opened WriteConflicts

  ghost predicate PrevSnapshot(job: Job, seqno: nat, prev: nat)
  {
    if prev == 0 then forall t :: t in job.snapshots ==> seqno <= t
    else prev in job.snapshots && prev < seqno && forall t :: t in job.snapshots && t < seqno ==> t <= prev
  }

  /** The earliest snapshot that sees `seqno`, and the one before it (0: none). */
  method FindEarliestVisibleSnapshot(job: Job, seqno: nat) returns (stripe: nat, prev: nat)
    requires SnapshotsLegal(job) && seqno <= MAX_SEQUENCE
    ensures IsStripe(job.snapshots, seqno, stripe)
    ensures PrevSnapshot(job, seqno, prev)
  {
    if job.snapshots == [] {
      return MAX_SEQUENCE, 0;
    }
    var i := 0;
    while i < |job.snapshots| && job.snapshots[i] < seqno
      invariant i <= |job.snapshots|
      invariant forall k :: 0 <= k < i ==> job.snapshots[k] < seqno
    {
      i := i + 1;
    }
    prev := if i == 0 then 0 else job.snapshots[i - 1];
    stripe := if i == |job.snapshots| then MAX_SEQUENCE else job.snapshots[i];
  }

  /** One more record was handed out, or none. */
  predicate Appended(before: seq<Record>, after: seq<Record>, grew: bool)
  {
    if grew then |after| == |before| + 1 && after[..|before|] == before else after == before
  }

  predicate EndsWith(em: seq<Record>, key: int)
  {
    em != [] && em[|em| - 1].key == key
  }

  ghost predicate CursorReady(job: Job, ptrs: seq<nat>, p: nat)
  {
    job.compaction.Some? && p < |job.input| ==> CursorAt(job.compaction.value, ptrs, job.input[p].key)
  }

  predicate ObsoleteDeletion(job: Job, r: Record)
  {
    job.compaction.Some? && r.kind.Deletion? && r.seqno <= EarliestSnapshot(job) &&
    NotNeededForIncrementalSnapshot(job, r.seqno) && AbsentBelow(job.compaction.value, r.key)
  }

  ghost predicate Zeroable(job: Job, m: Memory, r: Record, atNext: bool, pos: nat)
  {
    r.kind.Value? && !atNext && !m.clear && m.hasKey && pos < |job.input| && job.input[pos].seqno == r.seqno
  }

  /** The comparison with the previous snapshot decides stripe membership. */
  lemma StripeOfRun(job: Job, w: World, p: nat, q: nat, stripe: nat, prev: nat)
    requires Legal(job, w) && p < q < |job.input| && job.input[q].key == job.input[p].key
    requires IsStripe(job.snapshots, job.input[p].seqno, stripe) && PrevSnapshot(job, job.input[p].seqno, prev)
    ensures (prev == 0 || job.input[q].seqno > prev) <==> IsStripe(job.snapshots, job.input[q].seqno, stripe)
  {
    assert Before(job.input[p], job.input[q]);
  }

  lemma StripeTest(job: Job, w: World, p: nat, stripe: nat, prev: nat)
    requires Legal(job, w) && p + 1 < |job.input|
    requires IsStripe(job.snapshots, job.input[p].seqno, stripe) && PrevSnapshot(job, job.input[p].seqno, prev)
    ensures job.input[p + 1].key == job.input[p].key ==>
              (prev == 0 || job.input[p + 1].seqno > prev <==> NextInStripe(job, p, stripe))
  {
    if job.input[p + 1].key == job.input[p].key {
      StripeOfRun(job, w, p, p + 1, stripe, prev);
    }
  }

  /** The queries of one iterator never go back to a smaller key. */
  lemma CursorStays(job: Job, w: World, ptrs: seq<nat>, p: nat, q: nat)
    requires Legal(job, w) && p <= q && p < |job.input| && CursorReady(job, ptrs, p)
    ensures CursorReady(job, ptrs, q)
    ensures q < |job.input| && job.input[q].key == job.input[p].key ==> job.input[q].seqno <= job.input[p].seqno
  {
    assert p < q < |job.input| ==> Before(job.input[p], job.input[q]);
    if job.compaction.Some? && p < q < |job.input| {
      CursorMonotone(job.compaction.value, ptrs, job.input[p].key, job.input[q].key);
    }
  }

  lemma LegalFacts(job: Job, w: World)
    requires Legal(job, w)
    ensures Sorted(job.input) && SnapshotsLegal(job) && (job.compaction.Some? ==> LevelsSorted(job.compaction.value))
    ensures forall i :: 0 <= i < |job.input| ==> job.input[i].seqno <= MAX_SEQUENCE
    ensures Bottommost(job) ==> forall x :: x in job.input ==> NoKey(w.deeper, x.key)
  {
  }

  lemma ReadyBound(job: Job, w: World, m: Memory, em: seq<Record>, p: nat)
    requires Ready(job, w, m, em, p)
    ensures p <= |job.input|
  {
  }

  lemma ReadyFacts(job: Job, w: World, m: Memory, em: seq<Record>, p: nat)
    requires Ready(job, w, m, em, p) && p < |job.input|
    ensures !m.hasKey || m.key != job.input[p].key ==> !m.clear
  {
  }

  lemma FacingFacts(job: Job, w: World, m: Memory, em: seq<Record>, p: nat)
    requires Facing(job, w, m, em, p)
    ensures p < |job.input| && m.hasKey && m.key == job.input[p].key
  {
  }

  class CompactionIterator {
    const job: Job
    ghost const world: World

    var pos: nat
    var valid: bool
    var atNext: bool
    var ikey: Record
    var hasCurrentUserKey: bool
    var currentUserKey: int
    var currentUserKeySequence: nat
    var currentUserKeySnapshot: nat
    var hasOutputtedKey: bool
    var clearAndOutputNextKey: bool
    var levelPtrs: seq<nat>

    /** The records handed out so far, the current one included. */
    ghost var emitted: seq<Record>
    /** A dropped Deletion that still hides the rest of its stripe. */
    ghost var shadow: seq<Record>

    ghost function Memo(): Memory
      reads this
    {
      Memory(hasCurrentUserKey, currentUserKey, currentUserKeySnapshot, clearAndOutputNextKey, shadow)
    }

    /** Where the input stands once the current output has been consumed. */
    function NextPos(): nat
      reads this
    {
      if valid && !atNext then pos + 1 else pos
    }

    /** The last version looked at is not older than the next one of its key. */
    ghost predicate SequenceTracked(p: nat)
      reads this
    {
      hasCurrentUserKey && p < |job.input| && job.input[p].key == currentUserKey ==>
        job.input[p].seqno <= currentUserKeySequence
    }

    /** Nothing pending, input at `pos`. */
    ghost predicate Loaded()
      reads this
    {
      && Legal(job, world) && AllWorthKeeping(job, emitted)
      && Ready(job, world, Memo(), emitted, pos) && CursorReady(job, levelPtrs, pos)
      && ConflictsKept(job, emitted, pos) && SequenceTracked(pos)
      && (hasCurrentUserKey && hasOutputtedKey ==> EndsWith(emitted, currentUserKey))
    }

    /** `ikey` is the next output, not yet prepared. */
    ghost predicate Pending()
      reads this
    {
      && Legal(job, world) && AllWorthKeeping(job, emitted) && TombstoneNeeded(job, ikey)
      && valid && shadow == [] && currentUserKey == ikey.key
      && Ready(job, world, Memo(), emitted + [ikey], NextPos()) && CursorReady(job, levelPtrs, NextPos())
      && ConflictsKept(job, emitted + [ikey], NextPos()) && SequenceTracked(NextPos())
      && (MayZero(job, ikey) ==> Zeroable(job, Memo(), ikey, atNext, pos))
    }

    /** Between two calls: the current output is the last emitted record. */
    ghost predicate AtRest()
      reads this
    {
      && Legal(job, world) && AllWorthKeeping(job, emitted)
      && Ready(job, world, Memo(), emitted, NextPos()) && CursorReady(job, levelPtrs, NextPos())
      && ConflictsKept(job, emitted, NextPos()) && SequenceTracked(NextPos())
      && (if valid then shadow == [] && emitted != [] && emitted[|emitted| - 1] == ikey && currentUserKey == ikey.key
          else pos == |job.input|)
    }

    /** Looking at the record at `pos`, whose stripe has just been determined. */
    ghost predicate Deciding(m: Memory, prev: nat)
      reads this
    {
      && Legal(job, world) && AllWorthKeeping(job, emitted)
      && Facing(job, world, m, emitted, pos) && CursorReady(job, levelPtrs, pos)
      && !valid && !atNext && pos < |job.input| && ikey == job.input[pos] && currentUserKey == ikey.key
      && Memo() == m.(stripe := currentUserKeySnapshot)
      && IsStripe(job.snapshots, ikey.seqno, currentUserKeySnapshot)
      && PrevSnapshot(job, ikey.seqno, prev) && currentUserKeySequence == ikey.seqno
      && ConflictsKept(job, emitted, pos) && (hasOutputtedKey ==> EndsWith(emitted, ikey.key))
    }

    constructor (job: Job, ghost world: World)
      requires Legal(job, world)
      ensures this.job == job && this.world == world
      ensures Loaded() && !valid && pos == 0 && emitted == []
    {
      this.job := job;
      this.world := world;
      levelPtrs := if job.compaction.Some? then FreshCursor(job.compaction.value) else [];
      pos, valid, atNext := 0, false, false;
      ikey := Record(0, 0, Value, "");
      hasCurrentUserKey, currentUserKey := false, 0;
      currentUserKeySequence, currentUserKeySnapshot := 0, 0;
      hasOutputtedKey, clearAndOutputNextKey := false, false;
      emitted, shadow := [], [];
      new;
      assert [] + [] + Rest(job, world, 0) == job.input + world.deeper;
      NothingYet(job);
    }

    /** After a turn: an output is pending, or the input has advanced. */
    ghost predicate Decided(p: nat)
      reads this
    {
      (if valid then Pending() else Loaded() && !atNext) && p < NextPos()
    }

    /** A new user key resets the memory of the last one. */
    method TrackKey()
      requires Loaded() && !valid && !atNext && pos < |job.input|
      modifies this
      ensures emitted == old(emitted) && pos == old(pos) && levelPtrs == old(levelPtrs) && !valid && !atNext
      ensures Facing(job, world, Memo(), emitted, pos) && ikey == job.input[pos] && currentUserKey == ikey.key
      ensures ikey.seqno <= currentUserKeySequence && (hasOutputtedKey ==> EndsWith(emitted, ikey.key))
    {
      hide ConflictsKept, Ready, Facing, Legal, AllWorthKeeping, CursorReady, SnapshotsLegal, Sorted, LevelsSorted,
           NoKey;
      LegalFacts(job, world);
      ReadyFacts(job, world, Memo(), emitted, pos);
      EnterKey(job, world, Memo(), emitted, pos);
      ikey := job.input[pos];
      if !hasCurrentUserKey || ikey.key != currentUserKey {
        currentUserKey := ikey.key;
        hasCurrentUserKey := true;
        hasOutputtedKey := false;
        currentUserKeySequence := MAX_SEQUENCE;
        currentUserKeySnapshot := 0;
        shadow := [];
      }
    }

    /** Reads the record at `pos` and finds its stripe. */
    method LoadRecord() returns (ghost m: Memory, lastSequence: nat, lastSnapshot: nat, prev: nat)
      requires Loaded() && !valid && !atNext && pos < |job.input|
      modifies this
      ensures emitted == old(emitted) && pos == old(pos)
      ensures Deciding(m, prev) && lastSnapshot == m.stripe && clearAndOutputNextKey == m.clear
      ensures ikey == job.input[pos] && lastSequence >= currentUserKeySequence
    {
      hide ConflictsKept, Ready, Facing, Legal, AllWorthKeeping, IsStripe, PrevSnapshot, CursorReady, SnapshotsLegal,
           Sorted, LevelsSorted, NoKey;
      LegalFacts(job, world);
      TrackKey();
      m := Memo();
      FacingFacts(job, world, m, emitted, pos);
      lastSequence, currentUserKeySequence := currentUserKeySequence, ikey.seqno;
      lastSnapshot := currentUserKeySnapshot;
      currentUserKeySnapshot, prev := FindEarliestVisibleSnapshot(job, ikey.seqno);
    }

    /** The Put behind a kept SingleDelete. */
    method OutputCleared(ghost m: Memory, ghost prev: nat)
      requires Deciding(m, prev) && m.clear
      modifies this
      ensures emitted == old(emitted) && Decided(old(pos))
    {
      hide ConflictsKept, Ready, Facing, Legal, AllWorthKeeping, IsStripe, PrevSnapshot, CursorReady;
      ClearedEmitted(job, world, m, emitted, pos, currentUserKeySnapshot);
      SingleDeleteNotForgotten(job, world, ikey.key);
      EmitKeeps(job, emitted, pos, ikey.(value := ""));
      CursorStays(job, world, levelPtrs, pos, pos + 1);
      ikey := ikey.(value := "");
      valid := true;
      clearAndOutputNextKey := false;
    }

    method DropHiddenRecord(ghost m: Memory, ghost prev: nat)
      requires Deciding(m, prev) && !m.clear && !ikey.kind.SingleDeletion? && m.stripe == currentUserKeySnapshot
      modifies this
      ensures emitted == old(emitted) && Decided(old(pos))
    {
      hide ConflictsKept, Ready, Facing, Legal, AllWorthKeeping, IsStripe, PrevSnapshot, CursorReady;
      HiddenDropped(job, world, m, emitted, pos, currentUserKeySnapshot);
      LegalFacts(job, world);
      HiddenKeeps(job, emitted, pos);
      CursorStays(job, world, levelPtrs, pos, pos + 1);
      pos := pos + 1;
    }

    /** May this record be dropped because nothing is below it? */
    method CheckObsolete(ghost m: Memory, ghost prev: nat) returns (obsolete: bool)
      requires Deciding(m, prev)
      modifies this`levelPtrs
      ensures Deciding(m, prev)
      ensures obsolete == ObsoleteDeletion(job, ikey)
    {
      hide ConflictsKept, Ready, Facing, Legal, AllWorthKeeping, IsStripe, PrevSnapshot, CursorAt;
      LegalFacts(job, world);
      obsolete := false;
      if job.compaction.Some? && ikey.kind.Deletion? && ikey.seqno <= EarliestSnapshot(job)
         && NotNeededForIncrementalSnapshot(job, ikey.seqno) {
        obsolete, levelPtrs := KeyNotExistsBeyondOutputLevel(job.compaction.value, ikey.key, levelPtrs);
      }
    }

    method DropObsoleteDeletion(ghost m: Memory, ghost prev: nat)
      requires Deciding(m, prev) && !m.clear && m.stripe != currentUserKeySnapshot && ObsoleteDeletion(job, ikey)
      modifies this
      ensures emitted == old(emitted) && Decided(old(pos))
    {
      hide ConflictsKept, Ready, Facing, Legal, AllWorthKeeping, IsStripe, PrevSnapshot, CursorReady;
      ObsoleteDeletionDropped(job, world, m, emitted, pos, currentUserKeySnapshot);
      LegalFacts(job, world);
      OldKeeps(job, emitted, pos);
      CursorStays(job, world, levelPtrs, pos, pos + 1);
      shadow := [ikey];
      pos := pos + 1;
    }

    /** The first record of a stripe. */
    method OutputRecord(ghost m: Memory, ghost prev: nat)
      requires Deciding(m, prev) && !m.clear && m.stripe != currentUserKeySnapshot && !ikey.kind.SingleDeletion?
      requires !ObsoleteDeletion(job, ikey)
      requires !(ikey.kind.Deletion? && Bottommost(job) && NotNeededForIncrementalSnapshot(job, ikey.seqno))
      modifies this
      ensures emitted == old(emitted) && Decided(old(pos))
    {
      hide ConflictsKept, Ready, Facing, Legal, AllWorthKeeping, IsStripe, PrevSnapshot, CursorReady;
      Emitted(job, world, m, emitted, pos, currentUserKeySnapshot);
      StartNotForgotten(job, world, m, emitted, pos, currentUserKeySnapshot);
      EmitKeeps(job, emitted, pos, ikey);
      CursorStays(job, world, levelPtrs, pos, pos + 1);
      FacingFacts(job, world, m, emitted, pos);
      valid := true;
    }

    /** The record behind the SingleDelete is in the same stripe. */
    method SingleDeleteMeets(ghost m: Memory, ghost prev: nat)
      requires Deciding(m, prev) && !m.clear && ikey.kind.SingleDeletion?
      requires NextInStripe(job, pos, currentUserKeySnapshot)
      modifies this
      ensures emitted == old(emitted) && Decided(old(pos))
    {
      hide ConflictsKept, Ready, Facing, Legal, AllWorthKeeping, IsStripe, PrevSnapshot, CursorReady;
      ghost var p := pos;
      CursorStays(job, world, levelPtrs, p, p + 1);
      CursorStays(job, world, levelPtrs, p, p + 2);
      SingleDeleteFacts(job, world, m, emitted, p);
      LegalFacts(job, world);
      pos := pos + 1;
      var next := job.input[pos];
      if next.kind.SingleDeletion? {
        // the first of two is skipped; the next turn decides about the second
        DoubleSingleDelete(job, world, m, emitted, p, currentUserKeySnapshot);
        DoubleKeeps(job, world, emitted, p, currentUserKeySnapshot);
      } else if hasOutputtedKey || ikey.seqno <= job.earliestWriteConflictSnapshot {
        PairDropped(job, world, m, emitted, p, currentUserKeySnapshot);
        PairKeeps(job, world, m, emitted, p);
        pos := pos + 1;
      } else {
        KeptWithPut(job, world, m, emitted, p, currentUserKeySnapshot);
        SingleDeleteNotForgotten(job, world, ikey.key);
        EmitKeeps(job, emitted, p, ikey);
        valid := true;
        clearAndOutputNextKey := true;
        atNext := true;
      }
    }

    /** The record behind the SingleDelete is older than a snapshot in between. */
    method OutputStripeEnd(ghost m: Memory, ghost prev: nat)
      requires Deciding(m, prev) && !m.clear && ikey.kind.SingleDeletion?
      requires !NextInStripe(job, pos, currentUserKeySnapshot)
      requires pos + 1 < |job.input| && job.input[pos + 1].key == ikey.key
      modifies this
      ensures emitted == old(emitted) && Decided(old(pos))
    {
      hide ConflictsKept, Ready, Facing, Legal, AllWorthKeeping, IsStripe, PrevSnapshot, CursorReady;
      KeptAtStripeEnd(job, world, m, emitted, pos, currentUserKeySnapshot);
      SingleDeleteFacts(job, world, m, emitted, pos);
      SingleDeleteNotForgotten(job, world, ikey.key);
      EmitKeeps(job, emitted, pos, ikey);
      CursorStays(job, world, levelPtrs, pos, pos + 1);
      pos := pos + 1;
      valid := true;
      atNext := true;
    }

    /** The SingleDelete is the last record of its key. */
    method SingleDeleteAlone(ghost m: Memory, ghost prev: nat)
      requires Deciding(m, prev) && !m.clear && ikey.kind.SingleDeletion? && KeyEnds(job, pos)
      modifies this
      ensures emitted == old(emitted) && Decided(old(pos))
    {
      hide ConflictsKept, Ready, Facing, Legal, AllWorthKeeping, IsStripe, PrevSnapshot, CursorAt;
      LegalFacts(job, world);
      SingleDeleteFacts(job, world, m, emitted, pos);
      ghost var p := pos;
      ghost var m' := Memo().(hasKey := false);
      SingleDeleteNotForgotten(job, world, ikey.key);
      EmitKeeps(job, emitted, p, ikey);
      assert Ready(job, world, m', emitted + [ikey], p + 1)
          || (Bottommost(job) && ikey.seqno <= EarliestSnapshot(job)) by {
        if !(Bottommost(job) && ikey.seqno <= EarliestSnapshot(job)) {
          KeptLast(job, world, m, emitted, p, currentUserKeySnapshot);
        }
      }
      assert Ready(job, world, m', emitted, p + 1)
          || job.compaction.None? || !AbsentBelow(job.compaction.value, ikey.key) by {
        if job.compaction.Some? && AbsentBelow(job.compaction.value, ikey.key) {
          LastDropped(job, world, m, emitted, p, currentUserKeySnapshot);
        }
      }
      hasCurrentUserKey := false;
      var absent := false;
      if job.compaction.Some? && ikey.seqno <= EarliestSnapshot(job) {
        absent, levelPtrs := KeyNotExistsBeyondOutputLevel(job.compaction.value, ikey.key, levelPtrs);
      }
      CursorStays(job, world, levelPtrs, p, p + 1);
      if absent {
        OldKeeps(job, emitted, p);
      }
      pos := pos + 1;
      if !absent {
        valid := true;
        atNext := true;
      }
    }

    /** A SingleDelete is decided by peeking at the record behind it. */
    method ProcessSingleDelete(ghost m: Memory, prev: nat)
      requires Deciding(m, prev) && !m.clear && ikey.kind.SingleDeletion?
      modifies this
      ensures emitted == old(emitted) && Decided(old(pos))
    {
      hide ConflictsKept, Ready, Facing, Legal, AllWorthKeeping, IsStripe, PrevSnapshot, CursorReady, Sorted;
      LegalFacts(job, world);
      FacingFacts(job, world, m, emitted, pos);
      if pos + 1 < |job.input| {
        StripeTest(job, world, pos, currentUserKeySnapshot, prev);
      }
      if pos + 1 < |job.input| && job.input[pos + 1].key == ikey.key {
        var next := job.input[pos + 1];
        if prev == 0 || next.seqno > prev {
          SingleDeleteMeets(m, prev);
        } else {
          OutputStripeEnd(m, prev);
        }
      } else {
        SingleDeleteAlone(m, prev);
      }
    }

    /** Skips the versions in the stripe of the Deletion at `p`. */
    method SkipStripe(ghost p: nat, prev: nat)
      requires Legal(job, world) && p < |job.input| && pos == p + 1 && ikey == job.input[p] && ikey.kind.Deletion?
      requires IsStripe(job.snapshots, ikey.seqno, currentUserKeySnapshot) && PrevSnapshot(job, ikey.seqno, prev)
      requires Ready(job, world, Memo(), emitted + [ikey], pos)
      requires CursorReady(job, levelPtrs, pos) && SequenceTracked(pos)
      requires hasCurrentUserKey && currentUserKey == ikey.key && !clearAndOutputNextKey
      modifies this`pos
      ensures p < pos <= |job.input| && CursorReady(job, levelPtrs, pos) && SequenceTracked(pos)
      ensures Ready(job, world, Memo(), emitted + [ikey], pos)
      ensures forall i :: p <= i < pos ==>
                job.input[i].key == ikey.key && IsStripe(job.snapshots, job.input[i].seqno, currentUserKeySnapshot)
      ensures pos < |job.input| && job.input[pos].key == ikey.key ==>
                !IsStripe(job.snapshots, job.input[pos].seqno, currentUserKeySnapshot)
    {
      hide ConflictsKept, Ready, Facing, Legal, AllWorthKeeping, IsStripe, PrevSnapshot, CursorReady, Sorted, NoKey;
      ContractAt(job, world, p);
      while pos < |job.input| && job.input[pos].key == ikey.key && (prev == 0 || job.input[pos].seqno > prev)
        invariant p < pos <= |job.input| && CursorReady(job, levelPtrs, pos) && SequenceTracked(pos)
        invariant Ready(job, world, Memo(), emitted + [ikey], pos)
        invariant forall i :: p <= i < pos ==>
                    job.input[i].key == ikey.key && IsStripe(job.snapshots, job.input[i].seqno, currentUserKeySnapshot)
        decreases |job.input| - pos
      {
        StripeOfRun(job, world, p, pos, currentUserKeySnapshot, prev);
        RunSkipped(job, world, Memo(), emitted + [ikey], pos);
        CursorStays(job, world, levelPtrs, pos, pos + 1);
        pos := pos + 1;
      }
      if pos < |job.input| && job.input[pos].key == ikey.key {
        StripeOfRun(job, world, p, pos, currentUserKeySnapshot, prev);
      }
    }

    /** A Deletion of the bottommost level swallows its stripe, and is only
        output if an older stripe of its key still holds a record. */
    method ProcessBottommostDeletion(ghost m: Memory, prev: nat)
      requires Deciding(m, prev) && !m.clear && ikey.kind.Deletion? && m.stripe != currentUserKeySnapshot
      requires Bottommost(job) && EarliestSnapshot(job) < ikey.seqno
      requires NotNeededForIncrementalSnapshot(job, ikey.seqno)
      modifies this
      ensures emitted == old(emitted) && Decided(old(pos))
    {
      hide ConflictsKept, Ready, Facing, Legal, AllWorthKeeping, IsStripe, PrevSnapshot, CursorReady, Sorted, NoKey;
      ghost var p := pos;
      LegalFacts(job, world);
      FacingFacts(job, world, m, emitted, pos);
      Emitted(job, world, m, emitted, p, currentUserKeySnapshot);
      ContractAt(job, world, p);
      assert job.input[p] in job.input;
      CursorStays(job, world, levelPtrs, p, p + 1);
      pos := pos + 1;
      SkipStripe(p, prev);
      if pos < |job.input| && job.input[pos].key == ikey.key {
        ApartNotForgotten(job, p, pos, currentUserKeySnapshot);
        RunNoticed(job, emitted, p, pos);
        valid := true;
        atNext := true;
      } else {
        TailDeletionDropped(job, world, Memo(), emitted, ikey, pos);
        RunForgotten(job, world, emitted, p, pos, currentUserKeySnapshot);
      }
    }

    /** One turn of the loop in NextFromInput. */
    method ProcessRecord()
      requires Loaded() && !valid && !atNext && pos < |job.input|
      modifies this
      ensures emitted == old(emitted)
      ensures Decided(old(pos))
    {
      hide Loaded, Pending, Deciding;
      ghost var m;
      var lastSequence, lastSnapshot, prev;
      m, lastSequence, lastSnapshot, prev := LoadRecord();
      if clearAndOutputNextKey {
        OutputCleared(m, prev);
      } else if ikey.kind.SingleDeletion? {
        ProcessSingleDelete(m, prev);
      } else if lastSnapshot == currentUserKeySnapshot {
        assert lastSequence >= currentUserKeySequence;
        DropHiddenRecord(m, prev);
      } else {
        var obsolete := CheckObsolete(m, prev);
        if obsolete {
          DropObsoleteDeletion(m, prev);
        } else if ikey.kind.Deletion? && Bottommost(job) && NotNeededForIncrementalSnapshot(job, ikey.seqno) {
          ProcessBottommostDeletion(m, prev);
        } else {
          OutputRecord(m, prev);
        }
      }
    }

    /** Processes the input until there is an output or no input. */
    method NextFromInput()
      requires Loaded()
      modifies this
      ensures emitted == old(emitted)
      ensures if valid then Pending() && old(pos) < NextPos() else Loaded() && pos == |job.input|
    {
      atNext := false;
      valid := false;
      while !valid && pos < |job.input|
        invariant emitted == old(emitted)
        invariant if valid then Pending() && old(pos) < NextPos() else Loaded() && !atNext && old(pos) <= pos
        decreases !valid, |job.input| - pos
      {
        hide Loaded, Pending;
        ProcessRecord();
      }
    }

    /** Zeroes the sequence number of the current output where nobody needs it. */
    method PrepareOutput()
      requires if valid then Pending() else Loaded() && pos == |job.input|
      modifies this
      ensures AtRest() && valid == old(valid) && NextPos() == old(NextPos())
      ensures Appended(old(emitted), emitted, valid)
    {
      hide ConflictsKept, Ready, Facing, Legal, IsStripe, CursorReady, AbsentBelow;
      if valid && MayZero(job, ikey) {
        assert !ikey.kind.Deletion? && !ikey.kind.SingleDeletion?;
        Zeroed(job, world, Memo(), emitted, ikey, pos + 1);
        LegalFacts(job, world);
        ZeroKeeps(job, emitted, ikey, NextPos());
      }
      if valid && MayZero(job, ikey) {
        ikey := ikey.(seqno := 0);
      }
      if valid {
        emitted := emitted + [ikey];
      }
    }

    /** Positions on the first output. */
    method SeekToFirst()
      requires Loaded() && !valid && emitted == []
      modifies this
      ensures AtRest() && Appended([], emitted, valid) && NextPos() <= |job.input|
    {
      NextFromInput();
      PrepareOutput();
    }

    method Next()
      requires AtRest() && valid
      modifies this
      ensures AtRest() && Appended(old(emitted), emitted, valid)
      ensures valid ==> old(NextPos()) < NextPos()
      ensures NextPos() <= |job.input|
    {
      hide ConflictsKept, Ready, Legal, AllWorthKeeping, CursorReady;
      ReadyBound(job, world, Memo(), emitted, NextPos());
      if !atNext {
        pos := pos + 1;
      }
      NextFromInput();
      if valid {
        hasOutputtedKey := true;
      }
      PrepareOutput();
      ReadyBound(job, world, Memo(), emitted, NextPos());
    }
  }
}
