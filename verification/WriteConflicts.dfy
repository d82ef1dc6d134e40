/** What write-conflict checking sees: a transaction asks whether a key was
    written after its snapshot, so a compaction must leave such a record behind. */
module WriteConflicts {
  import opened Records
  import opened DeeperLevels
  import opened CompactionSteps

  /** The key was written after `t`. */
  predicate Newer(s: seq<Record>, key: int, t: nat)
  {
    exists i :: 0 <= i < |s| && s[i].key == key && t < s[i].seqno
  }

  /** A write-conflict check may be made against `t`. */
  predicate Watches(job: Job, t: nat)
  {
    Observes(job.snapshots, t) && job.earliestWriteConflictSnapshot <= t
  }

  /** The newest version of its key is a Deletion that the bottommost level
      does not need, and all versions share its stripe. */
  ghost predicate ForgottenAt(job: Job, i: nat, stripe: nat)
  {
    && i < |job.input| && job.input[i].kind.Deletion?
    && Bottommost(job) && NotNeededForIncrementalSnapshot(job, job.input[i].seqno)
    && IsStripe(job.snapshots, job.input[i].seqno, stripe)
    && forall j :: 0 <= j < |job.input| && job.input[j].key == job.input[i].key ==>
         i <= j && IsStripe(job.snapshots, job.input[j].seqno, stripe)
  }

  ghost predicate Forgotten(job: Job, key: int)
  {
    exists i: nat, stripe: nat :: ForgottenAt(job, i, stripe) && job.input[i].key == key
  }

  /** A skipped SingleDelete leaves it to the next one to be noticed. */
  predicate Owed(job: Job, p: nat, key: int, t: nat)
  {
    p < |job.input| && job.input[p].key == key && job.input[p].kind.SingleDeletion? && t < job.input[p].seqno
  }

  /** The invariant with the input at `p`. */
  ghost predicate ConflictsKept(job: Job, em: seq<Record>, p: nat)
  {
    && p <= |job.input|
    && (forall i, t: nat :: 0 <= i < p && Watches(job, t) && t < job.input[i].seqno ==>
          || Newer(em, job.input[i].key, t)
          || Forgotten(job, job.input[i].key)
          || Owed(job, p, job.input[i].key, t))
    && forall i :: 0 <= i < |em| ==> !Forgotten(job, em[i].key)
  }

  lemma NewerAppend(em: seq<Record>, r: Record, key: int, t: nat)
    ensures Newer(em + [r], key, t) <==> Newer(em, key, t) || (r.key == key && t < r.seqno)
  {
    var em' := em + [r];
    assert em'[|em|] == r;
    if Newer(em, key, t) {
      var i :| 0 <= i < |em| && em[i].key == key && t < em[i].seqno;
      assert em'[i] == em[i];
    }
  }

  lemma StripeUnique(job: Job, seqno: nat, stripe: nat, stripe': nat)
    requires SnapshotsLegal(job) && IsStripe(job.snapshots, seqno, stripe) && IsStripe(job.snapshots, seqno, stripe')
    ensures stripe == stripe'
  {
  }

  // ----- which keys are not forgotten

  lemma SingleDeleteNotForgotten(job: Job, w: World, key: int)
    requires Legal(job, w) && key in w.singleDeleteKeys
    ensures !Forgotten(job, key)
  {
    forall i: nat, stripe: nat | ForgottenAt(job, i, stripe) ensures job.input[i].key != key {
      ContractAt(job, w, i);
    }
  }

  /** The versions of a forgotten key share any stripe one of them has. */
  lemma OneStripe(job: Job, i: nat, stripe': nat, p: nat, stripe: nat)
    requires SnapshotsLegal(job) && ForgottenAt(job, i, stripe') && p < |job.input|
    requires IsStripe(job.snapshots, job.input[p].seqno, stripe)
    ensures job.input[p].key == job.input[i].key ==> stripe == stripe'
  {
    if job.input[p].key == job.input[i].key {
      StripeUnique(job, job.input[p].seqno, stripe, stripe');
    }
  }

  /** A version in another stripe. */
  lemma ApartNotForgotten(job: Job, p: nat, q: nat, stripe: nat)
    requires SnapshotsLegal(job) && p < |job.input| && q < |job.input| && job.input[q].key == job.input[p].key
    requires IsStripe(job.snapshots, job.input[p].seqno, stripe) && !IsStripe(job.snapshots, job.input[q].seqno, stripe)
    ensures !Forgotten(job, job.input[p].key)
  {
    forall i: nat, stripe': nat | ForgottenAt(job, i, stripe') ensures job.input[i].key != job.input[p].key {
      OneStripe(job, i, stripe', p, stripe);
    }
  }

  /** An older version comes right after another one. */
  lemma VersionBefore(job: Job, i: nat, p: nat)
    requires Sorted(job.input) && i < p < |job.input| && job.input[i].key == job.input[p].key
    ensures job.input[p - 1].key == job.input[p].key
  {
    assert Before(job.input[p - 1], job.input[p]);
    assert i == p - 1 || Before(job.input[i], job.input[p - 1]);
  }

  lemma StripeBefore(job: Job, i: nat, stripe': nat, p: nat, before: nat)
    requires Sorted(job.input) && SnapshotsLegal(job) && ForgottenAt(job, i, stripe') && p < |job.input|
    requires p > 0 && job.input[p - 1].key == job.input[p].key ==>
               IsStripe(job.snapshots, job.input[p - 1].seqno, before)
    ensures job.input[i].key == job.input[p].key ==> i == p || before == stripe'
  {
    if i < p && job.input[i].key == job.input[p].key {
      VersionBefore(job, i, p);
      OneStripe(job, i, stripe', p - 1, before);
    }
  }

  lemma StartElsewhere(job: Job, i: nat, stripe': nat, p: nat, before: nat, stripe: nat)
    requires Sorted(job.input) && SnapshotsLegal(job) && ForgottenAt(job, i, stripe') && p < |job.input|
    requires IsStripe(job.snapshots, job.input[p].seqno, stripe) && stripe != before
    requires p > 0 && job.input[p - 1].key == job.input[p].key ==>
               IsStripe(job.snapshots, job.input[p - 1].seqno, before)
    ensures i < |job.input|
    ensures job.input[i].key == job.input[p].key ==>
              && job.input[p].kind.Deletion? && Bottommost(job)
              && NotNeededForIncrementalSnapshot(job, job.input[p].seqno)
  {
    StripeBefore(job, i, stripe', p, before);
    OneStripe(job, i, stripe', p, stripe);
  }

  /** A record that starts a stripe, unless it is such a Deletion. */
  lemma StartNotForgotten(job: Job, w: World, m: Memory, em: seq<Record>, p: nat, stripe: nat)
    requires Legal(job, w) && Facing(job, w, m, em, p) && IsStripe(job.snapshots, job.input[p].seqno, stripe)
    requires stripe != m.stripe
    requires !(&& job.input[p].kind.Deletion? && Bottommost(job)
               && NotNeededForIncrementalSnapshot(job, job.input[p].seqno))
    ensures !Forgotten(job, job.input[p].key)
  {
    hide Ready, Progress, Reusable, Separated, EmittedOrdered, IsStripe, ForgottenAt;
    forall i: nat, stripe': nat | ForgottenAt(job, i, stripe')
      ensures i < |job.input| && job.input[i].key != job.input[p].key
    {
      StartElsewhere(job, i, stripe', p, m.stripe, stripe);
    }
  }

  // ----- one lemma per kind of step

  lemma NothingYet(job: Job)
    ensures ConflictsKept(job, [], 0)
  {
  }

  lemma EmitKeeps(job: Job, em: seq<Record>, p: nat, r: Record)
    requires ConflictsKept(job, em, p) && p < |job.input|
    requires r.key == job.input[p].key && r.seqno == job.input[p].seqno && !Forgotten(job, r.key)
    ensures ConflictsKept(job, em + [r], p + 1)
  {
    hide Newer, Forgotten;
    forall i, t: nat | 0 <= i < p + 1 && Watches(job, t) && t < job.input[i].seqno
      ensures Newer(em + [r], job.input[i].key, t) || Forgotten(job, job.input[i].key)
    {
      NewerAppend(em, r, job.input[i].key, t);
    }
  }

  /** A record behind a newer one of its key. */
  lemma HiddenKeeps(job: Job, em: seq<Record>, p: nat)
    requires ConflictsKept(job, em, p) && Sorted(job.input) && 0 < p < |job.input|
    requires job.input[p - 1].key == job.input[p].key && !job.input[p].kind.SingleDeletion?
    ensures ConflictsKept(job, em, p + 1)
  {
    hide Newer, Forgotten;
    assert Before(job.input[p - 1], job.input[p]);
  }

  /** A record too old for any check. */
  lemma OldKeeps(job: Job, em: seq<Record>, p: nat)
    requires ConflictsKept(job, em, p) && p < |job.input|
    requires job.input[p].seqno <= job.earliestWriteConflictSnapshot
    ensures ConflictsKept(job, em, p + 1)
  {
    hide Newer, Forgotten;
  }

  /** The first of two SingleDeletes in one stripe. */
  lemma DoubleKeeps(job: Job, w: World, em: seq<Record>, p: nat, stripe: nat)
    requires Legal(job, w) && ConflictsKept(job, em, p) && p < |job.input| && NextInStripe(job, p, stripe)
    requires IsStripe(job.snapshots, job.input[p].seqno, stripe) && job.input[p + 1].kind.SingleDeletion?
    ensures ConflictsKept(job, em, p + 1)
  {
    hide Newer, Forgotten;
    assert Before(job.input[p], job.input[p + 1]);
    SameStripe(job.snapshots, job.input[p].seqno, job.input[p + 1].seqno, stripe);
  }

  /** Something of this key was output before, and it is newer. */
  lemma OutputBefore(job: Job, m: Memory, em: seq<Record>, p: nat, t: nat)
    requires Sorted(job.input) && SnapshotsLegal(job) && p < |job.input| && EmittedOrdered(job, m, em, p)
    requires em != [] && em[|em| - 1].key == job.input[p].key && Watches(job, t) && t < job.input[p].seqno
    ensures Newer(em, job.input[p].key, t)
  {
    assert Before(job.input[p - 1], job.input[p]);
  }

  /** Rule 2: a SingleDelete and its Put go if something of the key was output
      before, or if they are older than every write-conflict snapshot. */
  lemma PairKeeps(job: Job, w: World, m: Memory, em: seq<Record>, p: nat)
    requires Legal(job, w) && Facing(job, w, m, em, p) && ConflictsKept(job, em, p) && p + 1 < |job.input|
    requires job.input[p + 1].key == job.input[p].key
    requires || job.input[p].seqno <= job.earliestWriteConflictSnapshot
             || (em != [] && em[|em| - 1].key == job.input[p].key)
    ensures ConflictsKept(job, em, p + 2)
  {
    hide Newer, Forgotten, Progress, Reusable, Separated;
    assert Before(job.input[p], job.input[p + 1]);
    forall t: nat | Watches(job, t) && t < job.input[p].seqno ensures Newer(em, job.input[p].key, t) {
      OutputBefore(job, m, em, p, t);
    }
  }

  /** A run of a key that no version precedes or follows holds all versions. */
  lemma WholeRun(job: Job, p: nat, q: nat, j: nat)
    requires Sorted(job.input) && p < q <= |job.input| && j < |job.input|
    requires forall i :: p <= i < q ==> job.input[i].key == job.input[p].key
    requires p > 0 ==> job.input[p - 1].key != job.input[p].key
    requires q < |job.input| ==> job.input[q].key != job.input[p].key
    ensures job.input[j].key == job.input[p].key ==> p <= j < q
  {
    assert j < p - 1 ==> Before(job.input[j], job.input[p - 1]);
    assert p > 0 ==> Before(job.input[p - 1], job.input[p]);
    assert q < |job.input| ==> Before(job.input[p], job.input[q]);
    assert q < j ==> Before(job.input[q], job.input[j]);
  }

  /** A Deletion and the run behind it go: either a newer version is there, or
      the key is forgotten. */
  lemma RunForgotten(job: Job, w: World, em: seq<Record>, p: nat, q: nat, stripe: nat)
    requires Legal(job, w) && ConflictsKept(job, em, p) && p < q <= |job.input| && job.input[p].kind.Deletion?
    requires Bottommost(job) && NotNeededForIncrementalSnapshot(job, job.input[p].seqno)
    requires forall i :: p <= i < q ==>
               job.input[i].key == job.input[p].key && IsStripe(job.snapshots, job.input[i].seqno, stripe)
    requires q < |job.input| ==> job.input[q].key != job.input[p].key
    ensures ConflictsKept(job, em, q)
  {
    hide Newer;
    if p > 0 && job.input[p - 1].key == job.input[p].key {
      forall i | p <= i < q ensures job.input[i].seqno < job.input[p - 1].seqno {
        assert Before(job.input[p - 1], job.input[i]);
      }
    } else {
      forall j | 0 <= j < |job.input| && job.input[j].key == job.input[p].key
        ensures p <= j && IsStripe(job.snapshots, job.input[j].seqno, stripe)
      {
        WholeRun(job, p, q, j);
      }
      assert ForgottenAt(job, p, stripe);
    }
  }

  /** The Deletion stays in front of the run it swallows. */
  lemma RunNoticed(job: Job, em: seq<Record>, p: nat, q: nat)
    requires ConflictsKept(job, em, p) && p < q <= |job.input| && Sorted(job.input)
    requires forall i :: p <= i < q ==> job.input[i].key == job.input[p].key
    requires !Forgotten(job, job.input[p].key)
    ensures ConflictsKept(job, em + [job.input[p]], q)
  {
    hide Newer, Forgotten;
    forall i, t: nat | 0 <= i < q && Watches(job, t) && t < job.input[i].seqno
      ensures Newer(em + [job.input[p]], job.input[i].key, t) || Forgotten(job, job.input[i].key)
    {
      NewerAppend(em, job.input[p], job.input[i].key, t);
      assert i <= p || Before(job.input[p], job.input[i]);
    }
  }

  /** Only records too old for any check are zeroed. */
  lemma ZeroKeeps(job: Job, em: seq<Record>, r: Record, p: nat)
    requires ConflictsKept(job, em + [r], p) && r.seqno <= job.earliestWriteConflictSnapshot
    ensures ConflictsKept(job, em + [r.(seqno := 0)], p)
  {
    hide Newer, Forgotten;
    var em' := em + [r.(seqno := 0)];
    forall i, t: nat | 0 <= i < p && Watches(job, t) && t < job.input[i].seqno
      ensures Newer(em', job.input[i].key, t) || Forgotten(job, job.input[i].key) || Owed(job, p, job.input[i].key, t)
    {
      NewerAppend(em, r, job.input[i].key, t);
      NewerAppend(em, r.(seqno := 0), job.input[i].key, t);
    }
    forall i | 0 <= i < |em'| ensures !Forgotten(job, em'[i].key) {
      assert (em + [r])[i].key == em'[i].key;
    }
  }

  // ----- at the end

  /** The output shows a write after `t` exactly if the input does and the key
      is not a forgotten one. */
  ghost predicate SameConflicts(job: Job, out: seq<Record>, key: int)
  {
    forall t: nat :: Watches(job, t) ==> (Newer(out, key, t) <==> Newer(job.input, key, t) && !Forgotten(job, key))
  }

  /** For a key that is over, the invariant says just that. */
  lemma ConflictsSettled(job: Job, w: World, em: seq<Record>, p: nat, key: int)
    requires ConflictsKept(job, em, p) && forall i :: 0 <= i < |em| ==> Descends(job, w, em[i])
    requires forall i :: p <= i < |job.input| ==> job.input[i].key != key
    ensures SameConflicts(job, em, key)
  {
    hide Forgotten;
    forall t: nat | Watches(job, t) ensures Newer(em, key, t) <==> Newer(job.input, key, t) && !Forgotten(job, key) {
      if Newer(em, key, t) {
        var i :| 0 <= i < |em| && em[i].key == key && t < em[i].seqno;
        assert Descends(job, w, em[i]);
        var k :| 0 <= k < |job.input| && Renders(job, job.input[k], em[i]);
        assert job.input[k].key == key && t < job.input[k].seqno;
      }
    }
  }

  /** A Deletion written after a write-conflict snapshot, alone of its key on
      the bottommost level: the input shows the write, and it is forgotten. */
  lemma DeletionForgotten() returns (job: Job, w: World)
    ensures Legal(job, w) && Watches(job, 3) && Newer(job.input, 1, 3) && Forgotten(job, 1)
  {
    var c := Compaction(true, 1, true, [[], []], 1, false, false);
    job := Job([Record(1, 5, Deletion, "")], [3], 3, Some(c), 0);
    w := World([], {});
    assert job.input[0].seqno == 5;
    assert ForgottenAt(job, 0, MAX_SEQUENCE);
  }
}
