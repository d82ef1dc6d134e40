/** What the compaction iterator must keep between two records of its input,
    and one lemma for each decision it can take about a record. */
module CompactionSteps {
  import opened Records
  import opened DeeperLevels

  /** What `CompactionIterator` is constructed with. */
  datatype Job = Job(
    input: seq<Record>,
    snapshots: seq<nat>,
    earliestWriteConflictSnapshot: nat,
    compaction: Option<Compaction>,
    preserveDeletesSeqnum: nat)

  /** What the iterator cannot see: the records below the output level, and
      the user keys on which the application issues SingleDelete. */
  datatype World = World(deeper: seq<Record>, singleDeleteKeys: set<int>)

  function EarliestSnapshot(job: Job): nat
  {
    if job.snapshots == [] then MAX_SEQUENCE else job.snapshots[0]
  }

  predicate Bottommost(job: Job)
  {
    job.compaction.Some? && job.compaction.value.bottommost
  }

  /** ikeyNotNeededForIncrementalSnapshot */
  predicate NotNeededForIncrementalSnapshot(job: Job, seqno: nat)
    requires job.compaction.Some?
  {
    !job.compaction.value.preserveDeletes || seqno < job.preserveDeletesSeqnum
  }

  /** The guard under which PrepareOutput sets the sequence number to zero. */
  predicate MayZero(job: Job, r: Record)
  {
    && job.compaction.Some?
    && !job.compaction.value.allowIngestBehind
    && NotNeededForIncrementalSnapshot(job, r.seqno)
    && Bottommost(job)
    && r.seqno <= EarliestSnapshot(job)
    && r.key != job.compaction.value.largestUserKey
  }

  function FirstKind(s: seq<Record>, key: int): Option<Kind>
  {
    if s == [] then None else if s[0].key == key then Some(s[0].kind) else FirstKind(s[1..], key)
  }

  /** The usage rule of SingleDelete: on such a key there is no Delete, and no
      Put overwrites a Put. Newest records come first. */
  ghost predicate SingleDeleteContract(s: seq<Record>, keys: set<int>)
  {
    forall i :: 0 <= i < |s| ==>
      && (s[i].kind.SingleDeletion? ==> s[i].key in keys)
      && (s[i].key in keys ==> !s[i].kind.Deletion?)
      && (s[i].key in keys && s[i].kind.Value? ==> FirstKind(s[i + 1..], s[i].key) != Some(Value))
  }

  ghost predicate SnapshotsLegal(job: Job)
  {
    && (forall i :: 0 <= i < |job.snapshots| ==> 0 < job.snapshots[i] <= MAX_SEQUENCE)
    && (forall i, j :: 0 <= i < j < |job.snapshots| ==> job.snapshots[i] <= job.snapshots[j])
    && EarliestSnapshot(job) <= job.earliestWriteConflictSnapshot
  }

  /** The deeper levels are older than the input, and they hold nothing for a
      key of the input that a scan of their files reports absent. */
  ghost predicate DeeperLegal(job: Job, w: World)
  {
    && (forall r, x :: r in w.deeper && x in job.input && r.key == x.key ==> r.seqno < x.seqno)
    && (job.compaction.Some? ==>
          && LevelsSorted(job.compaction.value)
          && forall x :: x in job.input && AbsentBelow(job.compaction.value, x.key) ==> NoKey(w.deeper, x.key))
  }

  ghost predicate Legal(job: Job, w: World)
  {
    && Sorted(job.input)
    && (forall i :: 0 <= i < |job.input| ==> job.input[i].seqno <= MAX_SEQUENCE)
    && SnapshotsLegal(job)
    && DeeperLegal(job, w)
    && Sorted(w.deeper)
    && SingleDeleteContract(job.input + w.deeper, w.singleDeleteKeys)
  }

  /** Records not yet consumed, over the deeper levels. */
  function Rest(job: Job, w: World, p: nat): seq<Record>
    requires p <= |job.input|
  {
    job.input[p..] + w.deeper
  }

  /** The iterator's memory of the current user key. `shadow` stands for a
      Deletion that was dropped but still hides what follows in its stripe. */
  datatype Memory = Memory(hasKey: bool, key: int, stripe: nat, clear: bool, shadow: seq<Record>)

  ghost predicate Progress(job: Job, w: World, done: seq<Record>, p: nat)
    requires p <= |job.input|
  {
    && SameReads(done + Rest(job, w, p), job.input + w.deeper, job.snapshots)
  }

  ghost predicate Hides(job: Job, done: seq<Record>, key: int, stripe: nat)
  {
    forall at :: Observes(job.snapshots, at) && stripe <= at ==> !Look(done, key, at).Miss?
  }

  ghost predicate KeyTracked(job: Job, m: Memory, p: nat)
    requires p <= |job.input|
  {
    if m.hasKey then
      p > 0 && job.input[p - 1].key == m.key && IsStripe(job.snapshots, job.input[p - 1].seqno, m.stripe)
    else
      0 < p < |job.input| ==> job.input[p - 1].key < job.input[p].key
  }

  ghost predicate ShadowLegal(job: Job, w: World, m: Memory, p: nat)
    requires p <= |job.input|
  {
    m.shadow != [] ==>
      && m.hasKey && p > 0 && job.input[p - 1].key == m.key && job.input[p - 1].seqno <= EarliestSnapshot(job)
      && |m.shadow| == 1 && m.shadow[0].key == m.key && m.shadow[0].kind.Deletion?
      && NoKey(w.deeper, m.key) && m.key !in w.singleDeleteKeys
  }

  /** The next record is hidden whenever the iterator is about to think so. */
  ghost predicate HidesNext(job: Job, m: Memory, done: seq<Record>, p: nat)
    requires p <= |job.input|
  {
    m.hasKey && !m.clear && p < |job.input| && job.input[p].key == m.key && !job.input[p].kind.SingleDeletion?
    && IsStripe(job.snapshots, job.input[p].seqno, m.stripe)
    ==> Hides(job, done, m.key, m.stripe)
  }

  ghost predicate ClearLegal(job: Job, w: World, m: Memory, done: seq<Record>, p: nat)
    requires p <= |job.input|
  {
    m.clear ==>
      && m.hasKey && m.shadow == [] && p < |job.input|
      && job.input[p].key == m.key && job.input[p].kind.Value?
      && IsStripe(job.snapshots, job.input[p].seqno, m.stripe)
      && EarliestSnapshot(job) < job.input[p].seqno && m.key in w.singleDeleteKeys
      && Hides(job, done, m.key, m.stripe)
  }

  /** The last emitted record was zeroed; the rest of its key will be dropped. */
  ghost predicate Squashed(job: Job, m: Memory, p: nat)
    requires p < |job.input|
  {
    && m.hasKey && m.key == job.input[p].key && !m.clear
    && p > 0 && job.input[p - 1].key == m.key
    && Bottommost(job) && NotNeededForIncrementalSnapshot(job, job.input[p].seqno)
    && job.input[p].seqno <= job.input[p - 1].seqno <= EarliestSnapshot(job)
  }

  ghost predicate EmittedOrdered(job: Job, m: Memory, em: seq<Record>, p: nat)
    requires p <= |job.input|
  {
    && Sorted(em)
    && (em != [] ==>
          && p > 0 && em[|em| - 1].key <= job.input[p - 1].key
          && (em[|em| - 1].key == job.input[p - 1].key ==>
                job.input[p - 1].seqno <= em[|em| - 1].seqno || job.input[p - 1].seqno <= EarliestSnapshot(job)))
    && (em != [] && p < |job.input| ==>
          Before(em[|em| - 1], job.input[p]) || (em[|em| - 1].key == job.input[p].key && Squashed(job, m, p)))
  }

  /** `x` is the input record `y`, possibly without its value, and with its
      sequence number zeroed only if it is a Value that may be zeroed. */
  predicate Renders(job: Job, y: Record, x: Record)
  {
    && x.key == y.key && x.kind == y.kind
    && (x.value == y.value || x.value == "")
    && (x.seqno == y.seqno || (x.seqno == 0 && x.kind.Value? && MayZero(job, y)))
  }

  /** An emitted record renders an input record and is newer than what is below. */
  ghost predicate Descends(job: Job, w: World, x: Record)
  {
    && (exists i :: 0 <= i < |job.input| && Renders(job, job.input[i], x))
    && (forall r :: r in w.deeper && r.key == x.key ==> r.seqno < x.seqno)
  }

  /** What has been emitted can be the input of another compaction. */
  ghost predicate Reusable(job: Job, w: World, em: seq<Record>, p: nat)
    requires p <= |job.input|
  {
    && SingleDeleteContract(em + Rest(job, w, p), w.singleDeleteKeys)
    && forall i :: 0 <= i < |em| ==> Descends(job, w, em[i])
  }

  /** Some observer sees `older` but not `newer`. */
  ghost predicate ToldApart(job: Job, newer: Record, older: Record)
  {
    exists at: nat :: Observes(job.snapshots, at) && older.seqno <= at < newer.seqno
  }

  /** A tombstone older than every snapshot stays only if something may be below it. */
  predicate TombstoneNeeded(job: Job, x: Record)
  {
    !x.kind.Value? && job.compaction.Some? && x.seqno <= EarliestSnapshot(job)
    && (x.kind.SingleDeletion? || NotNeededForIncrementalSnapshot(job, x.seqno))
    ==> !AbsentBelow(job.compaction.value, x.key)
  }

  /** What may be zeroed is a Value and has been zeroed. */
  predicate WorthKeeping(job: Job, x: Record)
  {
    TombstoneNeeded(job, x) && (MayZero(job, x) ==> x.kind.Value? && x.seqno == 0)
  }

  predicate AllWorthKeeping(job: Job, em: seq<Record>)
  {
    forall i :: 0 <= i < |em| ==> WorthKeeping(job, em[i])
  }

  /** Outside the SingleDelete keys every older version is emitted because some
      observer needs it. */
  ghost predicate Separated(job: Job, w: World, em: seq<Record>)
  {
    forall i, j :: 0 <= i < j < |em| && em[i].key == em[j].key && em[i].key !in w.singleDeleteKeys ==>
      ToldApart(job, em[i], em[j])
  }

  /** The invariant with the input at `p`, nothing pending. */
  ghost predicate Ready(job: Job, w: World, m: Memory, em: seq<Record>, p: nat)
  {
    && p <= |job.input|
    && Progress(job, w, em + m.shadow, p)
    && KeyTracked(job, m, p)
    && ShadowLegal(job, w, m, p)
    && HidesNext(job, m, em + m.shadow, p)
    && ClearLegal(job, w, m, em + m.shadow, p)
    && EmittedOrdered(job, m, em, p)
    && Reusable(job, w, em, p)
    && Separated(job, w, em)
  }

  /** The memory after the test for a new user key. */
  function Enter(job: Job, m: Memory, p: nat): Memory
    requires p < |job.input|
  {
    if m.hasKey && m.key == job.input[p].key then m else Memory(true, job.input[p].key, 0, false, [])
  }

  /** The invariant after that test: the record at `p` belongs to `m.key`. */
  ghost predicate Facing(job: Job, w: World, m: Memory, em: seq<Record>, p: nat)
  {
    && p < |job.input|
    && m.hasKey && m.key == job.input[p].key
    && Progress(job, w, em + m.shadow, p)
    && (if m.stripe == 0
        then p == 0 || job.input[p - 1].key < m.key
        else p > 0 && job.input[p - 1].key == m.key && IsStripe(job.snapshots, job.input[p - 1].seqno, m.stripe))
    && ShadowLegal(job, w, m, p)
    && (m.stripe != 0 ==> HidesNext(job, m, em + m.shadow, p))
    && ClearLegal(job, w, m, em + m.shadow, p)
    && EmittedOrdered(job, m, em, p)
    && Reusable(job, w, em, p)
    && Separated(job, w, em)
  }

  // ----- facts about the input

  lemma RestStep(job: Job, w: World, p: nat)
    requires p < |job.input|
    ensures Rest(job, w, p) == [job.input[p]] + Rest(job, w, p + 1)
  {
  }

  lemma EarliestStripe(job: Job, seqno: nat, stripe: nat)
    requires SnapshotsLegal(job) && IsStripe(job.snapshots, seqno, stripe)
    ensures 0 < EarliestSnapshot(job) && 0 < stripe
    ensures seqno <= EarliestSnapshot(job) ==> stripe == EarliestSnapshot(job)
  {
    if job.snapshots != [] {
      assert job.snapshots[0] in job.snapshots;
    }
  }

  lemma {:induction false} OlderUnreadable(s: seq<Record>, key: int, at: nat)
    requires FirstKind(s, key) != Some(Value)
    requires forall i :: 0 <= i < |s| && s[i].key == key ==> s[i].seqno <= at
    ensures Get(s, key, at) == None
  {
    if s != [] && s[0].key != key {
      OlderUnreadable(s[1..], key, at);
    }
  }

  lemma RestOlder(job: Job, w: World, p: nat, key: int, at: nat)
    requires Legal(job, w) && p < |job.input| && job.input[p].key == key && job.input[p].seqno <= at
    ensures var rest := Rest(job, w, p + 1);
            forall i :: 0 <= i < |rest| && rest[i].key == key ==> rest[i].seqno < at
  {
    var rest := Rest(job, w, p + 1);
    forall i | 0 <= i < |rest| && rest[i].key == key ensures rest[i].seqno < at {
      if i < |job.input| - (p + 1) {
        assert rest[i] == job.input[p + 1 + i];
        assert Before(job.input[p], job.input[p + 1 + i]);
      } else {
        assert rest[i] in w.deeper && job.input[p] in job.input;
      }
    }
  }

  /** Once the key has changed, the rest of the input does not come back to it. */
  lemma KeyIsOver(job: Job, w: World, p: nat, key: int)
    requires Legal(job, w) && 0 < p <= |job.input| && job.input[p - 1].key == key
    requires p < |job.input| ==> job.input[p].key != key
    requires NoKey(w.deeper, key)
    ensures NoKey(Rest(job, w, p), key)
  {
    forall i | 0 <= i < |Rest(job, w, p)| ensures Rest(job, w, p)[i].key != key {
      if i < |job.input| - p {
        assert Before(job.input[p - 1], job.input[p]);
        assert i == 0 || Before(job.input[p], job.input[p + i]);
      }
    }
  }

  lemma {:induction false} FirstKindNoKey(s: seq<Record>, key: int)
    requires NoKey(s, key)
    ensures FirstKind(s, key).None?
  {
    if s != [] {
      FirstKindNoKey(s[1..], key);
    }
  }

  lemma ContractAt(job: Job, w: World, p: nat)
    requires Legal(job, w) && p < |job.input|
    ensures job.input[p].kind.SingleDeletion? ==> job.input[p].key in w.singleDeleteKeys
    ensures job.input[p].key in w.singleDeleteKeys ==> !job.input[p].kind.Deletion?
    ensures job.input[p].key in w.singleDeleteKeys && job.input[p].kind.Value? ==>
              FirstKind(Rest(job, w, p + 1), job.input[p].key) != Some(Value)
  {
    var all := job.input + w.deeper;
    assert all[p] == job.input[p];
    assert all[p + 1..] == Rest(job, w, p + 1);
  }

  // ----- the SingleDelete contract under dropping and emitting

  lemma {:induction false} FirstKindConcat(a: seq<Record>, b: seq<Record>, key: int)
    ensures FirstKind(a + b, key) == if FirstKind(a, key).None? then FirstKind(b, key) else FirstKind(a, key)
  {
    if a == [] {
      assert a + b == b;
    } else {
      assert (a + b)[1..] == a[1..] + b;
      FirstKindConcat(a[1..], b, key);
    }
  }

  lemma ContractDrop(a: seq<Record>, r: Record, b: seq<Record>, keys: set<int>)
    requires SingleDeleteContract(a + [r] + b, keys)
    requires r.key in keys ==> FirstKind(b, r.key) != Some(Value)
    ensures SingleDeleteContract(a + b, keys)
  {
    var s, t := a + [r] + b, a + b;
    forall i | 0 <= i < |t|
      ensures (t[i].kind.SingleDeletion? ==> t[i].key in keys) && (t[i].key in keys ==> !t[i].kind.Deletion?)
      ensures t[i].key in keys && t[i].kind.Value? ==> FirstKind(t[i + 1..], t[i].key) != Some(Value)
    {
      if i < |a| {
        assert s[i] == t[i];
        assert s[i + 1..] == a[i + 1..] + ([r] + b) && t[i + 1..] == a[i + 1..] + b;
        FirstKindConcat(a[i + 1..], [r] + b, t[i].key);
        FirstKindConcat(a[i + 1..], b, t[i].key);
        assert ([r] + b)[1..] == b;
      } else {
        assert s[i + 1] == t[i] && s[i + 2..] == t[i + 1..];
      }
    }
  }

  lemma ContractExchange(a: seq<Record>, r: Record, r': Record, b: seq<Record>, keys: set<int>)
    requires SingleDeleteContract(a + [r] + b, keys)
    requires r'.key == r.key && r'.kind == r.kind
    ensures SingleDeleteContract(a + [r'] + b, keys)
  {
    var s, t := a + [r] + b, a + [r'] + b;
    forall i | 0 <= i < |t|
      ensures (t[i].kind.SingleDeletion? ==> t[i].key in keys) && (t[i].key in keys ==> !t[i].kind.Deletion?)
      ensures t[i].key in keys && t[i].kind.Value? ==> FirstKind(t[i + 1..], t[i].key) != Some(Value)
    {
      assert s[i].key == t[i].key && s[i].kind == t[i].kind;
      if i < |a| {
        assert s[i + 1..] == a[i + 1..] + ([r] + b) && t[i + 1..] == a[i + 1..] + ([r'] + b);
        FirstKindConcat(a[i + 1..], [r] + b, t[i].key);
        FirstKindConcat(a[i + 1..], [r'] + b, t[i].key);
        assert ([r] + b)[1..] == b && ([r'] + b)[1..] == b;
      } else {
        assert s[i + 1..] == t[i + 1..];
      }
    }
  }

  lemma ReusableDrop(job: Job, w: World, em: seq<Record>, p: nat)
    requires p < |job.input| && Reusable(job, w, em, p)
    requires job.input[p].key in w.singleDeleteKeys ==>
               FirstKind(Rest(job, w, p + 1), job.input[p].key) != Some(Value)
    ensures Reusable(job, w, em, p + 1)
  {
    RestStep(job, w, p);
    assert em + Rest(job, w, p) == em + [job.input[p]] + Rest(job, w, p + 1);
    ContractDrop(em, job.input[p], Rest(job, w, p + 1), w.singleDeleteKeys);
  }

  lemma ReusableEmit(job: Job, w: World, em: seq<Record>, p: nat, r: Record)
    requires Legal(job, w) && p < |job.input| && Reusable(job, w, em, p)
    requires r == job.input[p] || r == job.input[p].(value := "")
    ensures Reusable(job, w, em + [r], p + 1)
  {
    RestStep(job, w, p);
    assert em + Rest(job, w, p) == em + [job.input[p]] + Rest(job, w, p + 1);
    ContractExchange(em, job.input[p], r, Rest(job, w, p + 1), w.singleDeleteKeys);
    assert job.input[p] in job.input;
    assert Renders(job, job.input[p], r);
    assert Descends(job, w, r);
  }

  // ----- one lemma per decision

  lemma SameReadsTrans(a: seq<Record>, b: seq<Record>, c: seq<Record>, snapshots: seq<nat>)
    requires SameReads(a, b, snapshots) && SameReads(b, c, snapshots)
    ensures SameReads(a, c, snapshots)
  {
  }

  lemma SameReadsSym(a: seq<Record>, b: seq<Record>, snapshots: seq<nat>)
    requires SameReads(a, b, snapshots)
    ensures SameReads(b, a, snapshots)
  {
  }

  /** A shadow whose key is over hides nothing. */
  lemma DropShadow(job: Job, w: World, m: Memory, em: seq<Record>, p: nat)
    requires Legal(job, w) && Ready(job, w, m, em, p) && m.shadow != []
    requires p < |job.input| ==> job.input[p].key != m.key
    ensures Progress(job, w, em, p)
  {
    var rest := Rest(job, w, p);
    KeyIsOver(job, w, p, m.key);
    forall at: nat ensures Get(rest, m.key, at) == None { LookNoKey(rest, m.key, at); }
    DropTombstone(em, m.shadow[0], rest, job.snapshots);
    assert m.shadow == [m.shadow[0]];
    SameReadsSym(em + m.shadow + rest, em + rest, job.snapshots);
    SameReadsTrans(em + rest, em + m.shadow + rest, job.input + w.deeper, job.snapshots);
  }

  lemma EnterKey(job: Job, w: World, m: Memory, em: seq<Record>, p: nat)
    requires Legal(job, w) && Ready(job, w, m, em, p) && p < |job.input|
    ensures Facing(job, w, Enter(job, m, p), em, p)
  {
    if m.hasKey && m.key == job.input[p].key {
      EarliestStripe(job, job.input[p - 1].seqno, m.stripe);
    } else {
      assert p > 0 ==> Before(job.input[p - 1], job.input[p]);
      if m.shadow != [] {
        DropShadow(job, w, m, em, p);
      }
      assert em + [] == em;
      assert em + m.shadow == em || m.shadow != [];
      if em != [] {
        assert Before(em[|em| - 1], job.input[p]) by {
          assert !Squashed(job, m, p);
        }
      }
    }
  }

  /** The memory after the record at `p` has been looked at. */
  function Advance(m: Memory, stripe: nat): Memory
  {
    m.(stripe := stripe, clear := false)
  }

  lemma AppendOrdered(job: Job, m: Memory, em: seq<Record>, p: nat, r: Record)
    requires p < |job.input| && EmittedOrdered(job, m, em, p) && !Squashed(job, m, p)
    requires r.key == job.input[p].key && r.seqno <= job.input[p].seqno
    ensures Sorted(em + [r])
  {
  }

  /** Two stripes of one key are told apart by the end of the older one. */
  lemma StripesApart(job: Job, newer: nat, older: nat, stripe: nat, stripe': nat)
    requires SnapshotsLegal(job) && older <= newer && stripe != stripe'
    requires IsStripe(job.snapshots, newer, stripe) && IsStripe(job.snapshots, older, stripe')
    ensures older <= stripe' < newer && EarliestSnapshot(job) < newer
  {
    if newer <= EarliestSnapshot(job) {
      EarliestStripe(job, newer, stripe);
      EarliestStripe(job, older, stripe');
    }
  }

  lemma AppendSeparated(job: Job, w: World, m: Memory, em: seq<Record>, p: nat, stripe: nat, r: Record)
    requires Legal(job, w) && Facing(job, w, m, em, p)
    requires IsStripe(job.snapshots, job.input[p].seqno, stripe)
    requires r.key == job.input[p].key && r.seqno == job.input[p].seqno
    requires r.key !in w.singleDeleteKeys ==> stripe != m.stripe
    ensures Separated(job, w, em + [r])
  {
    var em' := em + [r];
    forall i, j | 0 <= i < j < |em'| && em'[i].key == em'[j].key && em'[i].key !in w.singleDeleteKeys
      ensures ToldApart(job, em'[i], em'[j])
    {
      if j < |em| {
        assert ToldApart(job, em[i], em[j]);
      } else {
        var last := em[|em| - 1];
        assert i == |em| - 1 || Before(em[i], last);
        assert Before(job.input[p - 1], job.input[p]);
        assert last.key == r.key;
        StripesApart(job, job.input[p - 1].seqno, r.seqno, m.stripe, stripe);
        assert Observes(job.snapshots, stripe) && r.seqno <= stripe < em'[i].seqno;
      }
    }
  }

  /** Moving on from a record that leaves nothing behind keeps the order. */
  lemma SkipOrdered(job: Job, m: Memory, em: seq<Record>, p: nat, m': Memory, q: nat)
    requires p < q <= |job.input| && Sorted(job.input) && EmittedOrdered(job, m, em, p)
    requires q < |job.input| && job.input[q].key == job.input[p].key && Squashed(job, m, p) ==>
               m'.hasKey && m'.key == m.key && !m'.clear
    ensures EmittedOrdered(job, m', em, q)
  {
    if em != [] && q < |job.input| {
      assert Before(job.input[p], job.input[q]);
      assert Before(job.input[q - 1], job.input[q]);
      assert q - 1 == p || Before(job.input[p], job.input[q - 1]);
    }
  }

  /** A record of a stripe that already has a newer one: rule (A). */
  lemma HiddenDropped(job: Job, w: World, m: Memory, em: seq<Record>, p: nat, stripe: nat)
    requires Legal(job, w) && Facing(job, w, m, em, p) && !m.clear
    requires !job.input[p].kind.SingleDeletion?
    requires IsStripe(job.snapshots, job.input[p].seqno, stripe) && stripe == m.stripe
    ensures p > 0 && job.input[p - 1].key == job.input[p].key
    ensures Ready(job, w, Advance(m, stripe), em, p + 1)
  {
    var r := job.input[p];
    var done := em + m.shadow;
    EarliestStripe(job, r.seqno, stripe);
    assert Before(job.input[p - 1], r);
    SameStripe(job.snapshots, job.input[p - 1].seqno, r.seqno, stripe);
    DropHidden(done, r, Rest(job, w, p + 1), job.snapshots);
    RestStep(job, w, p);
    assert done + Rest(job, w, p) == done + [r] + Rest(job, w, p + 1);
    SameReadsSym(done + Rest(job, w, p), done + Rest(job, w, p + 1), job.snapshots);
    SameReadsTrans(done + Rest(job, w, p + 1), done + Rest(job, w, p), job.input + w.deeper, job.snapshots);
    ContractAt(job, w, p);
    ReusableDrop(job, w, em, p);
    SkipOrdered(job, m, em, p, Advance(m, stripe), p + 1);
  }

  lemma HidesAfter(job: Job, done: seq<Record>, r: Record, stripe: nat)
    requires r.seqno <= stripe
    ensures Hides(job, done + [r], r.key, stripe)
  {
    forall at | Observes(job.snapshots, at) && stripe <= at ensures !Look(done + [r], r.key, at).Miss? {
      LookConcat(done, [r], r.key, at);
    }
  }

  /** An obsolete Deletion: it goes, and its shadow stays for its key. */
  lemma ObsoleteDeletionDropped(job: Job, w: World, m: Memory, em: seq<Record>, p: nat, stripe: nat)
    requires Legal(job, w) && Facing(job, w, m, em, p) && !m.clear
    requires job.input[p].kind.Deletion? && job.input[p].seqno <= EarliestSnapshot(job)
    requires job.compaction.Some? && AbsentBelow(job.compaction.value, job.input[p].key)
    requires IsStripe(job.snapshots, job.input[p].seqno, stripe) && stripe != m.stripe
    ensures m.shadow == []
    ensures Ready(job, w, Advance(m, stripe).(shadow := [job.input[p]]), em, p + 1)
  {
    var r := job.input[p];
    EarliestStripe(job, r.seqno, stripe);
    if m.stripe != 0 {
      EarliestStripe(job, job.input[p - 1].seqno, m.stripe);
    }
    assert m.shadow == [];
    assert r in job.input;
    ContractAt(job, w, p);
    RestStep(job, w, p);
    assert em + [] + Rest(job, w, p) == em + [r] + Rest(job, w, p + 1);
    HidesAfter(job, em, r, stripe);
    ReusableDrop(job, w, em, p);
    SkipOrdered(job, m, em, p, Advance(m, stripe).(shadow := [r]), p + 1);
  }

  /** A record that starts a stripe is emitted as it is. */
  lemma Emitted(job: Job, w: World, m: Memory, em: seq<Record>, p: nat, stripe: nat)
    requires Legal(job, w) && Facing(job, w, m, em, p) && !m.clear
    requires !job.input[p].kind.SingleDeletion?
    requires IsStripe(job.snapshots, job.input[p].seqno, stripe) && stripe != m.stripe
    ensures m.shadow == []
    ensures Ready(job, w, Advance(m, stripe), em + [job.input[p]], p + 1)
  {
    var r := job.input[p];
    EarliestStripe(job, r.seqno, stripe);
    if m.stripe != 0 {
      EarliestStripe(job, job.input[p - 1].seqno, m.stripe);
      assert Before(job.input[p - 1], r);
    }
    assert m.shadow == [];
    RestStep(job, w, p);
    assert em + [] + Rest(job, w, p) == em + [r] + [] + Rest(job, w, p + 1);
    HidesAfter(job, em, r, stripe);
    assert em + [r] + [] == em + [r];
    ReusableEmit(job, w, em, p, r);
    AppendSeparated(job, w, m, em, p, stripe, r);
    AppendOrdered(job, m, em, p, r);
    assert p + 1 < |job.input| ==> Before(r, job.input[p + 1]);
  }

  /** Nobody reads the value of the Put behind a kept SingleDelete. */
  lemma ClearedReads(job: Job, w: World, m: Memory, em: seq<Record>, p: nat, stripe: nat)
    requires Legal(job, w) && Facing(job, w, m, em, p) && m.clear
    requires IsStripe(job.snapshots, job.input[p].seqno, stripe)
    ensures job.input[p].kind.Value? && stripe == m.stripe && m.shadow == []
    ensures Progress(job, w, em + [job.input[p].(value := "")] + [], p + 1)
  {
    hide FirstKind, Separated, EmittedOrdered, Reusable;
    var r, rest := job.input[p], Rest(job, w, p + 1);
    var r' := r.(value := "");
    assert stripe == m.stripe;
    assert em + [] == em;
    forall at | Observes(job.snapshots, at) && r.seqno <= at ensures !Look(em, r.key, at).Miss? {
      assert stripe <= at;
    }
    Exchange(em, r, r', rest, job.snapshots);
    RestStep(job, w, p);
    assert em + [] + Rest(job, w, p) == em + [r] + rest;
    SameReadsSym(em + [r] + rest, em + [r'] + rest, job.snapshots);
    SameReadsTrans(em + [r'] + rest, em + [r] + rest, job.input + w.deeper, job.snapshots);
    assert em + [r'] + [] == em + [r'];
  }

  /** The Put behind a kept SingleDelete is emitted without its value. */
  lemma ClearedEmitted(job: Job, w: World, m: Memory, em: seq<Record>, p: nat, stripe: nat)
    requires Legal(job, w) && Facing(job, w, m, em, p) && m.clear
    requires IsStripe(job.snapshots, job.input[p].seqno, stripe)
    ensures job.input[p].kind.Value? && stripe == m.stripe && m.shadow == []
    ensures EarliestSnapshot(job) < job.input[p].seqno && job.input[p].key in w.singleDeleteKeys
    ensures Ready(job, w, Advance(m, stripe), em + [job.input[p].(value := "")], p + 1)
  {
    hide Progress;
    var r := job.input[p];
    var r' := r.(value := "");
    ClearedReads(job, w, m, em, p, stripe);
    assert em + [r'] + [] == em + [r'];
    HidesAfter(job, em, r', stripe);
    ReusableEmit(job, w, em, p, r');
    ContractAt(job, w, p);
    AppendSeparated(job, w, m, em, p, stripe, r');
    AppendOrdered(job, m, em, p, r');
    assert p + 1 < |job.input| ==> Before(r, job.input[p + 1]);
  }

  lemma ZeroedDescends(job: Job, w: World, em: seq<Record>, r: Record, p: nat)
    requires Legal(job, w) && p <= |job.input| && Reusable(job, w, em + [r], p) && MayZero(job, r) && r.kind.Value?
    ensures forall i :: 0 <= i <= |em| ==> Descends(job, w, (em + [r.(seqno := 0)])[i])
  {
    var em', r' := em + [r], r.(seqno := 0);
    assert em'[|em|] == r && Descends(job, w, r);
    var k :| 0 <= k < |job.input| && Renders(job, job.input[k], r);
    assert job.input[k] in job.input && Renders(job, job.input[k], r');
    assert NoKey(w.deeper, r.key);
    assert Descends(job, w, r');
    forall i | 0 <= i <= |em| ensures Descends(job, w, (em + [r'])[i]) {
      assert i < |em| ==> em'[i] == (em + [r'])[i];
    }
  }

  lemma ZeroedSeparated(job: Job, w: World, em: seq<Record>, r: Record)
    requires Separated(job, w, em + [r])
    ensures Separated(job, w, em + [r.(seqno := 0)])
  {
    var a, b := em + [r], em + [r.(seqno := 0)];
    forall i, j | 0 <= i < j < |b| && b[i].key == b[j].key && b[i].key !in w.singleDeleteKeys
      ensures ToldApart(job, b[i], b[j])
    {
      assert ToldApart(job, a[i], a[j]);
      var at: nat :| Observes(job.snapshots, at) && a[j].seqno <= at < a[i].seqno;
      assert b[j].seqno <= at < b[i].seqno;
    }
  }

  lemma ZeroedSorted(em: seq<Record>, r: Record)
    requires Sorted(em + [r])
    ensures Sorted(em + [r.(seqno := 0)])
  {
    var a, b := em + [r], em + [r.(seqno := 0)];
    forall i, j | 0 <= i < j < |b| ensures Before(b[i], b[j]) {
      assert Before(a[i], a[j]);
    }
  }

  /** PrepareOutput: the zeroed record reads as before, and nothing of its key follows. */
  lemma Zeroed(job: Job, w: World, m: Memory, em: seq<Record>, r: Record, p: nat)
    requires Legal(job, w) && Ready(job, w, m, em + [r], p) && MayZero(job, r) && r.kind.Value?
    requires m.hasKey && m.key == r.key && !m.clear && m.shadow == []
    requires p > 0 && job.input[p - 1].seqno == r.seqno
    ensures Ready(job, w, m, em + [r.(seqno := 0)], p)
  {
    var r' := r.(seqno := 0);
    var rest := Rest(job, w, p);
    forall at | Observes(job.snapshots, at) ensures r.seqno <= at {
      if at in job.snapshots {
        var i :| 0 <= i < |job.snapshots| && job.snapshots[i] == at;
        assert i == 0 || job.snapshots[0] <= job.snapshots[i];
      }
    }
    Exchange(em, r, r', rest, job.snapshots);
    SameReadsSym(em + [r] + rest, em + [r'] + rest, job.snapshots);
    assert em + [r] + [] == em + [r] && em + [r'] + [] == em + [r'];
    SameReadsTrans(em + [r'] + rest, em + [r] + rest, job.input + w.deeper, job.snapshots);
    HidesAfter(job, em, r', m.stripe);
    assert p < |job.input| ==> Before(job.input[p - 1], job.input[p]);
    assert em + [r] + rest == (em + [r]) + rest && em + [r'] + rest == (em + [r']) + rest;
    ContractExchange(em, r, r', rest, w.singleDeleteKeys);
    ZeroedDescends(job, w, em, r, p);
    ZeroedSeparated(job, w, em, r);
    ZeroedSorted(em, r);
  }

  // ----- SingleDelete

  lemma SingleDeleteFacts(job: Job, w: World, m: Memory, em: seq<Record>, p: nat)
    requires Legal(job, w) && Facing(job, w, m, em, p) && job.input[p].kind.SingleDeletion?
    ensures !m.clear && m.shadow == [] && em + m.shadow == em && job.input[p].key in w.singleDeleteKeys
    ensures em + m.shadow + Rest(job, w, p) == em + [job.input[p]] + Rest(job, w, p + 1)
  {
    ContractAt(job, w, p);
    RestStep(job, w, p);
  }

  /** The same key goes on in the same stripe. */
  predicate NextInStripe(job: Job, p: nat, stripe: nat)
  {
    p + 1 < |job.input| && job.input[p + 1].key == job.input[p].key &&
    IsStripe(job.snapshots, job.input[p + 1].seqno, stripe)
  }

  /** Of two SingleDeletes in a row the first is skipped. */
  lemma DoubleSingleDelete(job: Job, w: World, m: Memory, em: seq<Record>, p: nat, stripe: nat)
    requires Legal(job, w) && Facing(job, w, m, em, p) && job.input[p].kind.SingleDeletion?
    requires IsStripe(job.snapshots, job.input[p].seqno, stripe) && NextInStripe(job, p, stripe)
    requires job.input[p + 1].kind.SingleDeletion?
    ensures Ready(job, w, Advance(m, stripe), em, p + 1)
  {
    var r, n := job.input[p], job.input[p + 1];
    var rest := Rest(job, w, p + 1);
    SingleDeleteFacts(job, w, m, em, p);
    assert rest[0] == n && Before(r, n);
    DropTombstone(em, r, rest, job.snapshots);
    SameReadsSym(em + [r] + rest, em + rest, job.snapshots);
    SameReadsTrans(em + rest, em + [r] + rest, job.input + w.deeper, job.snapshots);
    ReusableDrop(job, w, em, p);
    SkipOrdered(job, m, em, p, Advance(m, stripe), p + 1);
  }

  lemma PairReusable(job: Job, w: World, em: seq<Record>, p: nat)
    requires Legal(job, w) && p + 1 < |job.input| && Reusable(job, w, em, p)
    requires job.input[p].key == job.input[p + 1].key && job.input[p].kind.SingleDeletion?
    requires !job.input[p + 1].kind.SingleDeletion?
    ensures Reusable(job, w, em, p + 2)
  {
    var r, n, rest := job.input[p], job.input[p + 1], Rest(job, w, p + 2);
    ContractAt(job, w, p);
    ContractAt(job, w, p + 1);
    RestStep(job, w, p);
    RestStep(job, w, p + 1);
    assert em + Rest(job, w, p) == (em + [r]) + [n] + rest;
    ContractDrop(em + [r], n, rest, w.singleDeleteKeys);
    ContractDrop(em, r, rest, w.singleDeleteKeys);
  }

  /** A SingleDelete and the Put it cancels go together. */
  lemma PairDropped(job: Job, w: World, m: Memory, em: seq<Record>, p: nat, stripe: nat)
    requires Legal(job, w) && Facing(job, w, m, em, p) && job.input[p].kind.SingleDeletion?
    requires IsStripe(job.snapshots, job.input[p].seqno, stripe) && NextInStripe(job, p, stripe)
    requires !job.input[p + 1].kind.SingleDeletion?
    ensures Ready(job, w, Advance(m, stripe), em, p + 2)
  {
    var r, n := job.input[p], job.input[p + 1];
    var rest := Rest(job, w, p + 2);
    SingleDeleteFacts(job, w, m, em, p);
    ContractAt(job, w, p);
    ContractAt(job, w, p + 1);
    RestStep(job, w, p + 1);
    assert Before(r, n);
    SameStripe(job.snapshots, r.seqno, n.seqno, stripe);
    forall at | Observes(job.snapshots, at) && r.seqno <= at ensures Get(rest, r.key, at) == None {
      RestOlder(job, w, p + 1, r.key, at);
      OlderUnreadable(rest, r.key, at);
    }
    DropPair(em, r, n, rest, job.snapshots);
    SameReadsSym(em + [r] + ([n] + rest), em + rest, job.snapshots);
    SameReadsTrans(em + rest, em + [r] + ([n] + rest), job.input + w.deeper, job.snapshots);
    PairReusable(job, w, em, p);
    SkipOrdered(job, m, em, p, Advance(m, stripe), p + 2);
    if p + 2 < |job.input| {
      ContractAt(job, w, p + 2);
      assert rest[0] == job.input[p + 2];
    }
  }

  /** A SingleDelete is kept; its Put will follow without value (Optimization 3). */
  lemma KeptWithPut(job: Job, w: World, m: Memory, em: seq<Record>, p: nat, stripe: nat)
    requires Legal(job, w) && Facing(job, w, m, em, p) && job.input[p].kind.SingleDeletion?
    requires IsStripe(job.snapshots, job.input[p].seqno, stripe) && NextInStripe(job, p, stripe)
    requires !job.input[p + 1].kind.SingleDeletion?
    requires job.earliestWriteConflictSnapshot < job.input[p].seqno
    ensures Ready(job, w, Advance(m, stripe).(clear := true), em + [job.input[p]], p + 1)
  {
    var r, n := job.input[p], job.input[p + 1];
    SingleDeleteFacts(job, w, m, em, p);
    ContractAt(job, w, p);
    ContractAt(job, w, p + 1);
    EarliestStripe(job, n.seqno, stripe);
    ReusableEmit(job, w, em, p, r);
    ContractAt(job, w, p);
    AppendSeparated(job, w, m, em, p, stripe, r);
    AppendOrdered(job, m, em, p, r);
    HidesAfter(job, em, r, stripe);
    assert em + [r] + [] == em + [r];
    assert Before(r, n);
  }

  /** A SingleDelete is kept because its stripe ends with it. */
  lemma KeptAtStripeEnd(job: Job, w: World, m: Memory, em: seq<Record>, p: nat, stripe: nat)
    requires Legal(job, w) && Facing(job, w, m, em, p) && job.input[p].kind.SingleDeletion?
    requires IsStripe(job.snapshots, job.input[p].seqno, stripe) && !NextInStripe(job, p, stripe)
    requires p + 1 < |job.input| && job.input[p + 1].key == job.input[p].key
    ensures EarliestSnapshot(job) < job.input[p].seqno
    ensures Ready(job, w, Advance(m, stripe), em + [job.input[p]], p + 1)
  {
    var r, n := job.input[p], job.input[p + 1];
    SingleDeleteFacts(job, w, m, em, p);
    EarliestStripe(job, r.seqno, stripe);
    assert Before(r, n);
    ReusableEmit(job, w, em, p, r);
    ContractAt(job, w, p);
    AppendSeparated(job, w, m, em, p, stripe, r);
    AppendOrdered(job, m, em, p, r);
    assert em + [r] + [] == em + [r];
  }

  predicate KeyEnds(job: Job, p: nat)
    requires p < |job.input|
  {
    p + 1 < |job.input| ==> job.input[p + 1].key != job.input[p].key
  }

  /** The last record of its key is a SingleDelete with something below. */
  lemma KeptLast(job: Job, w: World, m: Memory, em: seq<Record>, p: nat, stripe: nat)
    requires Legal(job, w) && Facing(job, w, m, em, p) && job.input[p].kind.SingleDeletion? && KeyEnds(job, p)
    requires !(Bottommost(job) && job.input[p].seqno <= EarliestSnapshot(job))
    requires IsStripe(job.snapshots, job.input[p].seqno, stripe)
    ensures Ready(job, w, Advance(m, stripe).(hasKey := false), em + [job.input[p]], p + 1)
  {
    SingleDeleteFacts(job, w, m, em, p);
    ReusableEmit(job, w, em, p, job.input[p]);
    ContractAt(job, w, p);
    AppendSeparated(job, w, m, em, p, stripe, job.input[p]);
    AppendOrdered(job, m, em, p, job.input[p]);
    assert em + [job.input[p]] + [] == em + [job.input[p]];
    assert p + 1 < |job.input| ==> Before(job.input[p], job.input[p + 1]);
  }

  /** The last record of its key is a SingleDelete over nothing. */
  lemma LastDropped(job: Job, w: World, m: Memory, em: seq<Record>, p: nat, stripe: nat)
    requires Legal(job, w) && Facing(job, w, m, em, p) && job.input[p].kind.SingleDeletion? && KeyEnds(job, p)
    requires job.compaction.Some? && AbsentBelow(job.compaction.value, job.input[p].key)
    ensures Ready(job, w, Advance(m, stripe).(hasKey := false), em, p + 1)
  {
    var r, rest := job.input[p], Rest(job, w, p + 1);
    SingleDeleteFacts(job, w, m, em, p);
    assert r in job.input;
    KeyIsOver(job, w, p + 1, r.key);
    forall at: nat ensures Get(rest, r.key, at) == None { LookNoKey(rest, r.key, at); }
    DropTombstone(em, r, rest, job.snapshots);
    SameReadsSym(em + [r] + rest, em + rest, job.snapshots);
    SameReadsTrans(em + rest, em + [r] + rest, job.input + w.deeper, job.snapshots);
    FirstKindNoKey(rest, r.key);
    ReusableDrop(job, w, em, p);
    SkipOrdered(job, m, em, p, Advance(m, stripe).(hasKey := false), p + 1);
    assert p + 1 < |job.input| ==> Before(r, job.input[p + 1]);
  }

  // ----- Deletion on the bottommost level

  /** The run behind a Deletion of the bottommost level is skipped record by record. */
  lemma RunSkipped(job: Job, w: World, m: Memory, em: seq<Record>, p: nat)
    requires Legal(job, w) && Ready(job, w, m, em, p) && p < |job.input|
    requires m.hasKey && m.key == job.input[p].key && !m.clear && m.key !in w.singleDeleteKeys
    requires IsStripe(job.snapshots, job.input[p].seqno, m.stripe)
    ensures Ready(job, w, m, em, p + 1)
  {
    EnterKey(job, w, m, em, p);
    ContractAt(job, w, p);
    HiddenDropped(job, w, m, em, p, m.stripe);
    assert Advance(m, m.stripe) == m;
  }

  /** Nothing of the key is left, so the Deletion itself goes too. */
  lemma TailDeletionDropped(job: Job, w: World, m: Memory, em: seq<Record>, r: Record, p: nat)
    requires Legal(job, w) && Ready(job, w, m, em + [r], p) && r.kind.Deletion? && m.shadow == []
    requires p > 0 && m.hasKey && m.key == r.key && !m.clear
    requires p < |job.input| ==> job.input[p].key != r.key
    requires NoKey(w.deeper, r.key) && r.key !in w.singleDeleteKeys
    ensures Ready(job, w, m, em, p)
  {
    var rest := Rest(job, w, p);
    KeyIsOver(job, w, p, r.key);
    forall at: nat ensures Get(rest, r.key, at) == None { LookNoKey(rest, r.key, at); }
    DropTombstone(em, r, rest, job.snapshots);
    forall i, j | 0 <= i < j < |em| && em[i].key == em[j].key && em[i].key !in w.singleDeleteKeys
      ensures ToldApart(job, em[i], em[j])
    {
      assert ToldApart(job, (em + [r])[i], (em + [r])[j]);
    }
    ContractDrop(em, r, rest, w.singleDeleteKeys);
    forall i | 0 <= i < |em| ensures Descends(job, w, em[i]) { assert em[i] == (em + [r])[i]; }
    assert em + [r] + [] == em + [r] && em + [] == em;
    SameReadsSym(em + [r] + rest, em + rest, job.snapshots);
    SameReadsTrans(em + rest, em + [r] + rest, job.input + w.deeper, job.snapshots);
    if em != [] {
      assert Before((em + [r])[|em| - 1], (em + [r])[|em|]);
    }
    forall i, j | 0 <= i < j < |em| ensures Before(em[i], em[j]) {
      assert Before((em + [r])[i], (em + [r])[j]);
    }
  }

  // ----- the end of the input

  /** All input consumed: reads are preserved, and the output is again legal. */
  lemma Finished(job: Job, w: World, m: Memory, em: seq<Record>)
    requires Legal(job, w) && Ready(job, w, m, em, |job.input|)
    ensures SameReads(em + w.deeper, job.input + w.deeper, job.snapshots)
    ensures Legal(job.(input := em), w)
  {
    if m.shadow != [] {
      DropShadow(job, w, m, em, |job.input|);
    }
    assert Rest(job, w, |job.input|) == w.deeper;
    assert em + m.shadow == em || m.shadow != [];
    forall r, x | r in w.deeper && x in em && r.key == x.key ensures r.seqno < x.seqno {
      var i :| 0 <= i < |em| && em[i] == x;
      assert Descends(job, w, em[i]);
    }
    forall i | 0 <= i < |em|
      ensures em[i].seqno <= MAX_SEQUENCE
      ensures job.compaction.Some? && AbsentBelow(job.compaction.value, em[i].key) ==> NoKey(w.deeper, em[i].key)
    {
      assert Descends(job, w, em[i]);
      var k :| 0 <= k < |job.input| && Renders(job, job.input[k], em[i]);
      assert job.input[k] in job.input;
    }
  }
}
