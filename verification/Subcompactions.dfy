/** Splitting one compaction into key slices that are compacted on their own:
    `GenSubcompactionBoundaries`, the slicing in `Prepare`, and the record loop
    of `ProcessKeyValueCompaction`. */
module Subcompactions {
  import opened Records
  import opened DeeperLevels
  import opened CompactionSteps
  import opened WriteConflicts
  import opened CompactionIterators

  // ----- where to cut

  datatype InputLevel = InputLevel(level: nat, files: seq<FileRange>)

  predicate StrictlyIncreasing(s: seq<int>)
  {
    forall i, j :: 0 <= i < j < |s| ==> s[i] < s[j]
  }

  /** The approximate size of the data between two candidate bounds. */
  function SpanSize(size: (int, int) -> nat, bounds: seq<int>, lo: nat, hi: nat): nat
    requires lo <= hi < |bounds|
  {
    if lo == hi then 0 else SpanSize(size, bounds, lo, hi - 1) + size(bounds[hi - 1], bounds[hi])
  }

  function Sum(s: seq<nat>): nat
  {
    if s == [] then 0 else Sum(s[..|s| - 1]) + s[|s| - 1]
  }

  lemma SumAppend(s: seq<nat>, x: nat)
    ensures Sum(s + [x]) == Sum(s) + x
  {
    assert (s + [x])[..|s|] == s;
  }

  predicate IsEndpoint(levels: seq<InputLevel>, key: int)
  {
    exists l, i :: 0 <= l < |levels| && 0 <= i < |levels[l].files| &&
      (levels[l].files[i].smallest == key || levels[l].files[i].largest == key)
  }

  /** The bounds a level gives: both ends of every file of level 0; else the ends of the level and, on the
      output level, where its files begin. */
  predicate BoundOf(level: InputLevel, outLevel: nat, key: int)
  {
    exists i :: 0 <= i < |level.files| &&
      (|| ((level.level == 0 || level.level == outLevel || i == 0) && level.files[i].smallest == key)
       || ((level.level == 0 || i == |level.files| - 1) && level.files[i].largest == key))
  }

  predicate IsBound(levels: seq<InputLevel>, startLevel: nat, outLevel: nat, key: int)
  {
    exists l :: 0 <= l < |levels| && startLevel <= levels[l].level <= outLevel && BoundOf(levels[l], outLevel, key)
  }

  method BoundsOfLevel(level: InputLevel, outLevel: nat) returns (bounds: seq<int>)
    requires level.files != []
    ensures forall key :: key in bounds <==> BoundOf(level, outLevel, key)
  {
    var files := level.files;
    bounds := [];
    if level.level == 0 {
      for i := 0 to |files|
        invariant forall key :: key in bounds <==>
                    exists k :: 0 <= k < i && (files[k].smallest == key || files[k].largest == key)
      {
        bounds := bounds + [files[i].smallest, files[i].largest];
      }
    } else {
      bounds := [files[0].smallest, files[|files| - 1].largest];
      if level.level == outLevel {
        for i := 1 to |files|
          invariant forall key :: key in bounds <==>
                      key == files[|files| - 1].largest || exists k :: 0 <= k < i && files[k].smallest == key
        {
          bounds := bounds + [files[i].smallest];
        }
      }
    }
  }

  /** The starting and ending keys of certain input files. */
  method CollectBounds(levels: seq<InputLevel>, startLevel: nat, outLevel: nat) returns (bounds: seq<int>)
    ensures forall key :: key in bounds <==> IsBound(levels, startLevel, outLevel, key)
    ensures forall i :: 0 <= i < |bounds| ==> IsEndpoint(levels, bounds[i])
    ensures forall l :: 0 <= l < |levels| && startLevel <= levels[l].level <= outLevel && levels[l].files != [] ==>
              levels[l].files[0].smallest in bounds && levels[l].files[|levels[l].files| - 1].largest in bounds
  {
    bounds := [];
    for l := 0 to |levels|
      invariant forall key :: key in bounds <==>
                  exists k :: 0 <= k < l && startLevel <= levels[k].level <= outLevel
                              && BoundOf(levels[k], outLevel, key)
    {
      if startLevel <= levels[l].level <= outLevel && levels[l].files != [] {
        var more := BoundsOfLevel(levels[l], outLevel);
        bounds := bounds + more;
      }
    }
    forall i | 0 <= i < |bounds| ensures IsEndpoint(levels, bounds[i]) {
      assert bounds[i] in bounds;
    }
    forall l | 0 <= l < |levels| && startLevel <= levels[l].level <= outLevel && levels[l].files != []
      ensures levels[l].files[0].smallest in bounds && levels[l].files[|levels[l].files| - 1].largest in bounds
    {
      assert BoundOf(levels[l], outLevel, levels[l].files[0].smallest);
      assert BoundOf(levels[l], outLevel, levels[l].files[|levels[l].files| - 1].largest);
    }
  }

  /** std::sort followed by std::unique. */
  method SortUnique(keys: seq<int>) returns (sorted: seq<int>)
    ensures StrictlyIncreasing(sorted)
    ensures forall k :: k in keys <==> k in sorted
  {
    sorted := [];
    for n := 0 to |keys|
      invariant StrictlyIncreasing(sorted)
      invariant forall k :: k in keys[..n] <==> k in sorted
    {
      var i := 0;
      while i < |sorted| && sorted[i] < keys[n]
        invariant i <= |sorted|
        invariant forall j :: 0 <= j < i ==> sorted[j] < keys[n]
      {
        i := i + 1;
      }
      ghost var before := sorted;
      if i == |sorted| || sorted[i] != keys[n] {
        sorted := sorted[..i] + [keys[n]] + sorted[i..];
        assert forall k :: k in sorted <==> k in before || k == keys[n];
      } else {
        assert keys[n] in sorted;
      }
      assert keys[..n + 1] == keys[..n] + [keys[n]];
    }
  }

  function Ceil(x: real): int
  {
    -(-x).Floor
  }

  ghost function LastCut(cuts: seq<nat>): nat
  {
    if cuts == [] then 0 else cuts[|cuts| - 1]
  }

  /** The cut points `cuts` (indices into `bounds`) explain the groups: group
      `i` ends at candidate bound number `cuts[i]` and has size `sizes[i]`. */
  ghost predicate Explains(size: (int, int) -> nat, bounds: seq<int>, cuts: seq<nat>,
                           boundaries: seq<int>, sizes: seq<nat>)
  {
    && |cuts| == |boundaries| == |sizes|
    && (cuts != [] ==>
          var n := |cuts| - 1;
          && LastCut(cuts[..n]) < cuts[n] < |bounds|
          && boundaries[n] == bounds[cuts[n]]
          && sizes[n] == SpanSize(size, bounds, LastCut(cuts[..n]), cuts[n])
          && Explains(size, bounds, cuts[..n], boundaries[..n], sizes[..n]))
  }

  lemma ExplainsNothing(size: (int, int) -> nat, bounds: seq<int>)
    ensures Explains(size, bounds, [], [], [])
  {
  }

  lemma ExplainsAppend(size: (int, int) -> nat, bounds: seq<int>, cuts: seq<nat>,
                       boundaries: seq<int>, sizes: seq<nat>, cut: nat, sum: nat)
    requires Explains(size, bounds, cuts, boundaries, sizes) && LastCut(cuts) < cut < |bounds|
    requires sum == SpanSize(size, bounds, LastCut(cuts), cut)
    ensures Explains(size, bounds, cuts + [cut], boundaries + [bounds[cut]], sizes + [sum])
  {
    var n := |cuts|;
    assert (cuts + [cut])[..n] == cuts && (boundaries + [bounds[cut]])[..n] == boundaries;
    assert (sizes + [sum])[..n] == sizes;
  }

  /** `x` is at least the mean of `total` over `count` parts. */
  predicate ReachesMean(total: nat, count: nat, x: nat)
  {
    total <= count * x
  }

  lemma MeanReached(total: nat, count: nat, x: nat, mean: real)
    requires count > 0 && mean == total as real / count as real && x as real >= mean
    ensures ReachesMean(total, count, x)
  {
    assert count as real * mean == total as real;
    assert count as real * (x as real - mean) >= 0.0;
    assert (count * x) as real == count as real * x as real;
  }

  /** Groups consecutive ranges until each group but the last has the mean size. */
  method CutRanges(size: (int, int) -> nat, bounds: seq<int>, count: nat, total: nat)
    returns (boundaries: seq<int>, sizes: seq<nat>, ghost cuts: seq<nat>)
    requires |bounds| >= 2 && count > 1 && total == SpanSize(size, bounds, 0, |bounds| - 1)
    ensures |sizes| == |boundaries| + 1 && |boundaries| < count && |cuts| == |boundaries|
    ensures Explains(size, bounds, cuts, boundaries, sizes[..|boundaries|])
    ensures forall k :: 0 <= k < |cuts| ==> cuts[k] < |bounds| - 1
    ensures Sum(sizes) == total
    ensures forall k :: 0 <= k < |boundaries| ==> ReachesMean(total, count, sizes[k])
  {
    hide ReachesMean, Explains;
    var ranges: nat := |bounds| - 1;
    var mean := total as real / count as real;
    var left := count;
    var sum := 0;
    boundaries, sizes, cuts := [], [], [];
    ExplainsNothing(size, bounds);
    for i := 0 to ranges - 1
      invariant |cuts| == |boundaries| == |sizes| && LastCut(cuts) <= i
      invariant Explains(size, bounds, cuts, boundaries, sizes)
      invariant 1 <= left && left + |boundaries| == count
      invariant forall k :: 0 <= k < |cuts| ==> cuts[k] <= i
      invariant sum == SpanSize(size, bounds, LastCut(cuts), i)
      invariant Sum(sizes) + sum == SpanSize(size, bounds, 0, i)
      invariant forall k :: 0 <= k < |sizes| ==> ReachesMean(total, count, sizes[k])
    {
      sum := sum + size(bounds[i], bounds[i + 1]);
      if left != 1 && sum as real >= mean {
        SumAppend(sizes, sum);
        MeanReached(total, count, sum, mean);
        ExplainsAppend(size, bounds, cuts, boundaries, sizes, i + 1, sum);
        boundaries := boundaries + [bounds[i + 1]];
        sizes := sizes + [sum];
        cuts := cuts + [i + 1];
        left := left - 1;
        sum := 0;
      }
    }
    SumAppend(sizes, sum + size(bounds[ranges - 1], bounds[ranges]));
    ghost var closed := sizes;
    sizes := sizes + [sum + size(bounds[ranges - 1], bounds[ranges])];
    assert sizes[..|boundaries|] == closed;
  }

  lemma {:induction false} BoundariesAreBounds(size: (int, int) -> nat, bounds: seq<int>, cuts: seq<nat>,
                                               boundaries: seq<int>, sizes: seq<nat>)
    requires Explains(size, bounds, cuts, boundaries, sizes) && StrictlyIncreasing(bounds)
    ensures StrictlyIncreasing(boundaries)
    ensures forall i :: 0 <= i < |boundaries| ==>
              0 < cuts[i] <= LastCut(cuts) && boundaries[i] == bounds[cuts[i]] && boundaries[i] in bounds
    ensures cuts != [] ==> LastCut(cuts) < |bounds|
  {
    if cuts != [] {
      var n := |cuts| - 1;
      BoundariesAreBounds(size, bounds, cuts[..n], boundaries[..n], sizes[..n]);
      forall i | 0 <= i < n ensures 0 < cuts[i] < cuts[n] && boundaries[i] == bounds[cuts[i]] {
        assert cuts[..n][i] == cuts[i] && boundaries[..n][i] == boundaries[i];
      }
      forall i, j | 0 <= i < j < |boundaries| ensures boundaries[i] < boundaries[j] {
        assert j < n ==> boundaries[..n][i] < boundaries[..n][j];
      }
    }
  }

  /** How many subcompactions to aim for. */
  function TargetCount(size: (int, int) -> nat, bounds: seq<int>, maxSubcompactions: nat, maxFileSize: real): (n: nat)
    requires bounds != [] && maxFileSize > 0.0
    ensures n <= maxSubcompactions && n < |bounds|
  {
    var total := SpanSize(size, bounds, 0, |bounds| - 1);
    var files := Ceil(total as real / 0.8 / maxFileSize);
    var n := if |bounds| - 1 < maxSubcompactions then |bounds| - 1 else maxSubcompactions;
    if files < 0 then 0 else if files < n then files else n
  }

  method GroupRanges(size: (int, int) -> nat, bounds: seq<int>, maxSubcompactions: nat, maxFileSize: real)
    returns (boundaries: seq<int>, sizes: seq<nat>, ghost cuts: seq<nat>)
    requires bounds != [] && StrictlyIncreasing(bounds) && maxFileSize > 0.0
    ensures |sizes| == |boundaries| + 1
    ensures StrictlyIncreasing(boundaries)
    ensures forall i :: 0 <= i < |boundaries| ==>
              boundaries[i] in bounds && bounds[0] < boundaries[i] < bounds[|bounds| - 1]
    ensures Explains(size, bounds, cuts, boundaries, sizes[..|boundaries|])
    ensures Sum(sizes) == SpanSize(size, bounds, 0, |bounds| - 1)
    ensures boundaries == [] || |boundaries| < TargetCount(size, bounds, maxSubcompactions, maxFileSize)
    ensures forall i :: 0 <= i < |boundaries| ==>
              ReachesMean(SpanSize(size, bounds, 0, |bounds| - 1),
                          TargetCount(size, bounds, maxSubcompactions, maxFileSize), sizes[i])
  {
    hide ReachesMean, TargetCount, Explains;
    var sum := 0;
    for i := 0 to |bounds| - 1
      invariant sum == SpanSize(size, bounds, 0, i)
    {
      sum := sum + size(bounds[i], bounds[i + 1]);
    }
    var count := TargetCount(size, bounds, maxSubcompactions, maxFileSize);
    if count > 1 {
      boundaries, sizes, cuts := CutRanges(size, bounds, count, sum);
      BoundariesAreBounds(size, bounds, cuts, boundaries, sizes[..|boundaries|]);
    } else {
      SumAppend([], sum);
      ExplainsNothing(size, bounds);
      boundaries, sizes, cuts := [], [] + [sum], [];
      assert sizes[..0] == [];
    }
  }

  /** GenSubcompactionBoundaries */
  method GenSubcompactionBoundaries(levels: seq<InputLevel>, startLevel: nat, outLevel: nat,
                                    size: (int, int) -> nat, maxSubcompactions: nat, maxFileSize: real)
    returns (boundaries: seq<int>, sizes: seq<nat>, ghost bounds: seq<int>, ghost cuts: seq<nat>)
    requires exists l :: 0 <= l < |levels| && startLevel <= levels[l].level <= outLevel && levels[l].files != []
    requires maxFileSize > 0.0
    ensures |sizes| == |boundaries| + 1
    ensures StrictlyIncreasing(boundaries)
    ensures forall i :: 0 <= i < |boundaries| ==> IsEndpoint(levels, boundaries[i])
    // the slices cover the whole range between the first bound and the last
    ensures |bounds| > 0 && StrictlyIncreasing(bounds)
    ensures forall key :: key in bounds <==> IsBound(levels, startLevel, outLevel, key)
    ensures Explains(size, bounds, cuts, boundaries, sizes[..|boundaries|])
    ensures Sum(sizes) == SpanSize(size, bounds, 0, |bounds| - 1)
    // no more of them than asked for, and all but the last at least of mean size
    ensures boundaries == [] || |boundaries| < TargetCount(size, bounds, maxSubcompactions, maxFileSize)
    ensures forall i :: 0 <= i < |boundaries| ==>
              ReachesMean(SpanSize(size, bounds, 0, |bounds| - 1),
                          TargetCount(size, bounds, maxSubcompactions, maxFileSize), sizes[i])
  {
    hide Explains, SpanSize, Sum, IsBound, IsEndpoint, ReachesMean, TargetCount;
    var raw := CollectBounds(levels, startLevel, outLevel);
    var sorted := SortUnique(raw);
    ghost var l :| 0 <= l < |levels| && startLevel <= levels[l].level <= outLevel && levels[l].files != [];
    assert levels[l].files[0].smallest in raw;
    bounds := sorted;
    boundaries, sizes, cuts := GroupRanges(size, sorted, maxSubcompactions, maxFileSize);
    forall i | 0 <= i < |boundaries| ensures IsEndpoint(levels, boundaries[i]) {
      assert boundaries[i] in bounds && boundaries[i] in raw;
    }
  }

  // ----- one slice

  predicate AtOrAfter(start: Option<int>, key: int)
  {
    start.Some? ==> start.value <= key
  }

  predicate StrictlyBefore(key: int, end: Option<int>)
  {
    end.Some? ==> key < end.value
  }

  /** input->Seek(start) */
  method Seek(input: seq<Record>, start: Option<int>) returns (a: nat)
    requires Sorted(input)
    ensures a <= |input|
    ensures forall i :: 0 <= i < a ==> !AtOrAfter(start, input[i].key)
    ensures forall i :: a <= i < |input| ==> AtOrAfter(start, input[i].key)
  {
    a := 0;
    while a < |input| && !AtOrAfter(start, input[a].key)
      invariant a <= |input|
      invariant forall i :: 0 <= i < a ==> !AtOrAfter(start, input[i].key)
    {
      a := a + 1;
    }
    forall i | a <= i < |input| ensures AtOrAfter(start, input[i].key) {
      assert i == a || Before(input[a], input[i]);
    }
  }

  /** A suffix of a legal input is a legal input. */
  lemma SuffixLegal(job: Job, w: World, a: nat)
    requires Legal(job, w) && a <= |job.input|
    ensures Legal(job.(input := job.input[a..]), w)
  {
    var job' := job.(input := job.input[a..]);
    forall i, j | 0 <= i < j < |job'.input| ensures Before(job'.input[i], job'.input[j]) {
      assert Before(job.input[a + i], job.input[a + j]);
    }
    var all, part := job.input + w.deeper, job'.input + w.deeper;
    forall i | 0 <= i < |part|
      ensures (part[i].kind.SingleDeletion? ==> part[i].key in w.singleDeleteKeys)
      ensures (part[i].key in w.singleDeleteKeys ==> !part[i].kind.Deletion?)
      ensures part[i].key in w.singleDeleteKeys && part[i].kind.Value? ==>
                FirstKind(part[i + 1..], part[i].key) != Some(Value)
    {
      assert all[a + i] == part[i] && all[a + i + 1..] == part[i + 1..];
    }
  }

  ghost predicate InSlice(start: Option<int>, end: Option<int>, key: int)
  {
    AtOrAfter(start, key) && StrictlyBefore(key, end)
  }

  /** Write-conflict checks on the keys of a slice. */
  ghost predicate SliceConflicts(job: Job, start: Option<int>, end: Option<int>, out: seq<Record>)
  {
    forall key :: InSlice(start, end, key) ==> SameConflicts(job, out, key)
  }

  /** What a slice's output owes to the whole compaction. */
  ghost predicate SliceDone(job: Job, w: World, start: Option<int>, end: Option<int>, out: seq<Record>)
  {
    && Sorted(out)
    && (forall i :: 0 <= i < |out| ==> InSlice(start, end, out[i].key) && Descends(job, w, out[i]))
    && (forall key, at :: InSlice(start, end, key) && Observes(job.snapshots, at) ==>
          Get(out + w.deeper, key, at) == Get(job.input + w.deeper, key, at))
    && SingleDeleteContract(out + w.deeper, w.singleDeleteKeys)
    && AllWorthKeeping(job, out) && Separated(job, w, out)
    && SliceConflicts(job, start, end, out)
  }

  /** Records of other slices do not matter to a read in this one. */
  lemma MiddleUnread(out: seq<Record>, mid: seq<Record>, deeper: seq<Record>, key: int, at: nat)
    requires NoKey(mid, key)
    ensures Get(out + mid + deeper, key, at) == Get(out + deeper, key, at)
  {
    LookConcat(out + mid, deeper, key, at);
    LookConcat(out, mid, key, at);
    LookNoKey(mid, key, at);
    LookConcat(out, deeper, key, at);
  }

  lemma PrefixUnread(pre: seq<Record>, s: seq<Record>, key: int, at: nat)
    requires NoKey(pre, key)
    ensures Get(pre + s, key, at) == Get(s, key, at)
  {
    LookConcat(pre, s, key, at);
    LookNoKey(pre, key, at);
  }

  lemma ContractSplice(out: seq<Record>, mid: seq<Record>, deeper: seq<Record>, keys: set<int>)
    requires SingleDeleteContract(out + mid + deeper, keys)
    requires forall i :: 0 <= i < |out| ==> NoKey(mid, out[i].key)
    ensures SingleDeleteContract(out + deeper, keys)
  {
    var s, t := out + mid + deeper, out + deeper;
    forall i | 0 <= i < |t|
      ensures (t[i].kind.SingleDeletion? ==> t[i].key in keys) && (t[i].key in keys ==> !t[i].kind.Deletion?)
      ensures t[i].key in keys && t[i].kind.Value? ==> FirstKind(t[i + 1..], t[i].key) != Some(Value)
    {
      if i < |out| {
        assert s[i] == t[i];
        assert s[i + 1..] == out[i + 1..] + (mid + deeper) && t[i + 1..] == out[i + 1..] + deeper;
        FirstKindConcat(out[i + 1..], mid + deeper, t[i].key);
        FirstKindConcat(mid, deeper, t[i].key);
        FirstKindNoKey(mid, t[i].key);
        FirstKindConcat(out[i + 1..], deeper, t[i].key);
      } else {
        assert s[i + |mid|] == t[i] && s[i + |mid| + 1..] == t[i + 1..];
      }
    }
  }

  lemma ForgottenInSuffix(job: Job, a: nat, key: int)
    requires a <= |job.input| && (forall i :: 0 <= i < a ==> job.input[i].key != key)
    ensures Forgotten(job, key) <==> Forgotten(job.(input := job.input[a..]), key)
  {
    hide IsStripe;
    var job' := job.(input := job.input[a..]);
    if Forgotten(job, key) {
      var i: nat, stripe: nat :| ForgottenAt(job, i, stripe) && job.input[i].key == key;
      assert ForgottenAt(job', i - a, stripe);
    }
    if Forgotten(job', key) {
      var i: nat, stripe: nat :| ForgottenAt(job', i, stripe) && job'.input[i].key == key;
      forall j | 0 <= j < |job.input| && job.input[j].key == key
        ensures i + a <= j && IsStripe(job.snapshots, job.input[j].seqno, stripe)
      {
        assert job'.input[j - a] == job.input[j];
      }
      assert ForgottenAt(job, i + a, stripe);
    }
  }

  /** The versions of a key are all in the part of the input that has one. */
  lemma ConflictsOfSuffix(job: Job, a: nat, em: seq<Record>, key: int)
    requires a <= |job.input| && (forall i :: 0 <= i < a ==> job.input[i].key != key)
    requires SameConflicts(job.(input := job.input[a..]), em, key)
    ensures SameConflicts(job, em, key)
  {
    var job' := job.(input := job.input[a..]);
    ForgottenInSuffix(job, a, key);
    forall t: nat | Watches(job, t) ensures Newer(em, key, t) <==> Newer(job.input, key, t) && !Forgotten(job, key) {
      assert Watches(job', t);
      if Newer(job.input, key, t) {
        var i :| 0 <= i < |job.input| && job.input[i].key == key && t < job.input[i].seqno;
        assert job'.input[i - a] == job.input[i];
      }
      if Newer(job'.input, key, t) {
        var i :| 0 <= i < |job'.input| && job'.input[i].key == key && t < job'.input[i].seqno;
        assert job.input[i + a] == job'.input[i];
      }
    }
  }

  lemma ConflictsWithout(job: Job, out: seq<Record>, x: Record, key: int)
    requires SameConflicts(job, out + [x], key) && x.key != key
    ensures SameConflicts(job, out, key)
  {
    forall t: nat | Watches(job, t) ensures Newer(out, key, t) <==> Newer(job.input, key, t) && !Forgotten(job, key) {
      NewerAppend(out, x, key, t);
    }
  }

  /** What the iterator had produced or not yet consumed when it was left. */
  function LeftUnread(job: Job, em: seq<Record>, q: nat, stopped: bool): seq<Record>
    requires q <= |job.input| && (stopped ==> em != [])
  {
    if stopped then [em[|em| - 1]] + job.input[q..] else []
  }

  lemma SettledSlice(job: Job, w: World, a: nat, start: Option<int>, end: Option<int>,
                     m: Memory, em: seq<Record>, q: nat, out: seq<Record>, stopped: bool)
    requires a <= |job.input| && Ready(job.(input := job.input[a..]), w, m, em, q) && Appended(out, em, stopped)
    requires ConflictsKept(job.(input := job.input[a..]), em, q)
    requires forall i :: 0 <= i < a ==> !AtOrAfter(start, job.input[i].key)
    requires if stopped then em != [] && !StrictlyBefore(em[|em| - 1].key, end) else q == |job.input| - a
    requires forall r :: r in LeftUnread(job.(input := job.input[a..]), em, q, stopped) ==> !StrictlyBefore(r.key, end)
    ensures SliceConflicts(job, start, end, out)
  {
    hide SameConflicts, ConflictsKept, Newer, Look, Sorted, EmittedOrdered, SingleDeleteContract;
    var job' := job.(input := job.input[a..]);
    forall key | InSlice(start, end, key) ensures SameConflicts(job, out, key) {
      forall i | q <= i < |job'.input| ensures job'.input[i].key != key {
        assert job'.input[i] in LeftUnread(job', em, q, stopped);
      }
      ConflictsSettled(job', w, em, q, key);
      ConflictsOfSuffix(job, a, em, key);
      if stopped {
        assert em == out + [em[|em| - 1]];
        ConflictsWithout(job, out, em[|em| - 1], key);
      }
    }
  }

  lemma SliceKeeps(job: Job, w: World, a: nat, start: Option<int>, end: Option<int>,
                   m: Memory, em: seq<Record>, q: nat, out: seq<Record>, stopped: bool)
    requires a <= |job.input| && Ready(job.(input := job.input[a..]), w, m, em, q) && Appended(out, em, stopped)
    requires forall i :: a <= i < |job.input| ==> AtOrAfter(start, job.input[i].key)
    requires forall i :: 0 <= i < |out| ==> StrictlyBefore(out[i].key, end)
    requires AllWorthKeeping(job.(input := job.input[a..]), em)
    ensures AllWorthKeeping(job, out) && Separated(job, w, out)
    ensures Sorted(out)
    ensures forall i :: 0 <= i < |out| ==> InSlice(start, end, out[i].key) && Descends(job, w, out[i])
  {
    var job' := job.(input := job.input[a..]);
    forall i | 0 <= i < |out| ensures InSlice(start, end, out[i].key) && Descends(job, w, out[i]) {
      assert out[i] == em[i] && Descends(job', w, em[i]);
      var k :| 0 <= k < |job'.input| && Renders(job', job'.input[k], em[i]);
      assert Renders(job, job.input[a + k], out[i]);
    }
    forall i, j | 0 <= i < j < |out| ensures Before(out[i], out[j]) {
      assert Before(em[i], em[j]);
    }
    forall i | 0 <= i < |out| ensures WorthKeeping(job, out[i]) {
      assert WorthKeeping(job', em[i]);
    }
    forall i, j | 0 <= i < j < |out| && out[i].key == out[j].key && out[i].key !in w.singleDeleteKeys
      ensures ToldApart(job, out[i], out[j])
    {
      assert ToldApart(job', em[i], em[j]);
    }
  }

  lemma SliceUnread(job: Job, w: World, m: Memory, em: seq<Record>, q: nat,
                    end: Option<int>, out: seq<Record>, stopped: bool)
    requires Legal(job, w) && Ready(job, w, m, em, q) && Appended(out, em, stopped)
    requires if stopped then m.shadow == [] && !StrictlyBefore(em[|em| - 1].key, end) else q == |job.input|
    ensures SameReads(out + LeftUnread(job, em, q, stopped) + w.deeper, job.input + w.deeper, job.snapshots)
    ensures SingleDeleteContract(out + LeftUnread(job, em, q, stopped) + w.deeper, w.singleDeleteKeys)
    ensures forall r :: r in LeftUnread(job, em, q, stopped) ==> !StrictlyBefore(r.key, end)
  {
    var mid := LeftUnread(job, em, q, stopped);
    if stopped {
      var x := em[|em| - 1];
      assert em == out + [x];
      assert out + mid + w.deeper == em + Rest(job, w, q);
      assert em + m.shadow == em;
      forall i | q <= i < |job.input| ensures !StrictlyBefore(job.input[i].key, end) {
        assert x.key <= job.input[q].key;
        assert i == q || Before(job.input[q], job.input[i]);
      }
    } else {
      Finished(job, w, m, em);
      assert out + mid == em;
    }
  }

  /** Where the iterator was left, its outputs before `end` settle the slice. */
  lemma SliceFinished(job: Job, w: World, a: nat, start: Option<int>, end: Option<int>,
                      m: Memory, em: seq<Record>, q: nat, out: seq<Record>, stopped: bool)
    requires Legal(job, w) && a <= |job.input|
    requires Legal(job.(input := job.input[a..]), w)
    requires Ready(job.(input := job.input[a..]), w, m, em, q)
    requires forall i :: 0 <= i < a ==> !AtOrAfter(start, job.input[i].key)
    requires forall i :: a <= i < |job.input| ==> AtOrAfter(start, job.input[i].key)
    requires forall i :: 0 <= i < |out| ==> StrictlyBefore(out[i].key, end)
    requires AllWorthKeeping(job.(input := job.input[a..]), em)
    requires Appended(out, em, stopped) && (stopped ==> em != [])
    requires if stopped then m.shadow == [] && !StrictlyBefore(em[|em| - 1].key, end) else q == |job.input| - a
    requires ConflictsKept(job.(input := job.input[a..]), em, q)
    ensures SliceDone(job, w, start, end, out)
  {
    hide SliceConflicts, ConflictsKept, Ready, Legal, Look, SingleDeleteContract, Sorted, Descends, Appended;
    var job' := job.(input := job.input[a..]);
    ReadyBound(job', w, m, em, q);
    var mid := LeftUnread(job', em, q, stopped);
    SliceUnread(job', w, m, em, q, end, out, stopped);
    SliceKeeps(job, w, a, start, end, m, em, q, out, stopped);
    forall key, at | InSlice(start, end, key) && Observes(job.snapshots, at)
      ensures Get(out + w.deeper, key, at) == Get(job.input + w.deeper, key, at)
    {
      MiddleUnread(out, mid, w.deeper, key, at);
      PrefixUnread(job.input[..a], job'.input + w.deeper, key, at);
      assert job.input[..a] + (job'.input + w.deeper) == job.input + w.deeper;
    }
    ContractSplice(out, mid, w.deeper, w.singleDeleteKeys);
    SettledSlice(job, w, a, start, end, m, em, q, out, stopped);
  }

  /** ProcessKeyValueCompaction: the iterator runs from `start` and is left at
      the first output whose user key is not before `end`. */
  method CompactSlice(job: Job, ghost w: World, start: Option<int>, end: Option<int>) returns (out: seq<Record>)
    requires Legal(job, w)
    ensures SliceDone(job, w, start, end, out)
  {
    hide Ready, Legal, SliceDone, CursorReady, ConflictsKept;
    LegalFacts(job, w);
    var a := Seek(job.input, start);
    ghost var job' := job.(input := job.input[a..]);
    SuffixLegal(job, w, a);
    var iter := new CompactionIterator(job.(input := job.input[a..]), w);
    iter.SeekToFirst();
    out := [];
    while iter.valid && StrictlyBefore(iter.currentUserKey, end)
      invariant fresh(iter) && iter.job == job' && iter.world == w
      invariant iter.AtRest() && Appended(out, iter.emitted, iter.valid)
      invariant forall i :: 0 <= i < |out| ==> StrictlyBefore(out[i].key, end)
      invariant iter.NextPos() <= |job'.input|
      decreases iter.valid, |job'.input| - iter.NextPos()
    {
      out := out + [iter.ikey];
      assert iter.emitted == out;
      iter.Next();
    }
    SliceFinished(job, w, a, start, end, iter.Memo(), iter.emitted, iter.NextPos(), out, iter.valid);
  }

  lemma ContractInsert(out: seq<Record>, more: seq<Record>, deeper: seq<Record>, keys: set<int>)
    requires SingleDeleteContract(out + deeper, keys) && SingleDeleteContract(more + deeper, keys)
    requires forall i :: 0 <= i < |out| ==> NoKey(more, out[i].key)
    ensures SingleDeleteContract(out + more + deeper, keys)
  {
    var s, t, u := out + deeper, more + deeper, out + more + deeper;
    forall i | 0 <= i < |u|
      ensures (u[i].kind.SingleDeletion? ==> u[i].key in keys) && (u[i].key in keys ==> !u[i].kind.Deletion?)
      ensures u[i].key in keys && u[i].kind.Value? ==> FirstKind(u[i + 1..], u[i].key) != Some(Value)
    {
      if i < |out| {
        assert s[i] == u[i];
        assert s[i + 1..] == out[i + 1..] + deeper && u[i + 1..] == out[i + 1..] + (more + deeper);
        FirstKindConcat(out[i + 1..], more + deeper, u[i].key);
        FirstKindConcat(more, deeper, u[i].key);
        FirstKindNoKey(more, u[i].key);
        FirstKindConcat(out[i + 1..], deeper, u[i].key);
      } else {
        assert t[i - |out|] == u[i] && t[i - |out| + 1..] == u[i + 1..];
      }
    }
  }

  lemma NewerConcat(a: seq<Record>, b: seq<Record>, key: int, t: nat)
    ensures Newer(a + b, key, t) <==> Newer(a, key, t) || Newer(b, key, t)
  {
    assert forall i :: 0 <= i < |a| ==> (a + b)[i] == a[i];
    assert forall i :: 0 <= i < |b| ==> (a + b)[|a| + i] == b[i];
    if Newer(a + b, key, t) {
      var i :| 0 <= i < |a + b| && (a + b)[i].key == key && t < (a + b)[i].seqno;
      assert i < |a| ==> a[i] == (a + b)[i];
      assert i >= |a| ==> b[i - |a|] == (a + b)[i];
    }
  }

  lemma ConflictsJoin(job: Job, mid: int, end: Option<int>, out: seq<Record>, more: seq<Record>)
    requires StrictlyBefore(mid, end)
    requires forall i :: 0 <= i < |out| ==> out[i].key < mid
    requires forall i :: 0 <= i < |more| ==> mid <= more[i].key
    requires SliceConflicts(job, None, Some(mid), out) && SliceConflicts(job, Some(mid), end, more)
    ensures SliceConflicts(job, None, end, out + more)
  {
    hide Forgotten;
    forall key | InSlice(None, end, key) ensures SameConflicts(job, out + more, key) {
      assert if key < mid then SameConflicts(job, out, key) else SameConflicts(job, more, key) by {
        assert key < mid ==> InSlice(None, Some(mid), key);
        assert mid <= key ==> InSlice(Some(mid), end, key);
      }
      forall t: nat | Watches(job, t)
        ensures Newer(out + more, key, t) <==> Newer(job.input, key, t) && !Forgotten(job, key)
      {
        NewerConcat(out, more, key, t);
      }
    }
  }

  // ----- all slices

  function SliceStart(boundaries: seq<int>, i: nat): Option<int>
    requires i <= |boundaries|
  {
    if i == 0 then None else Some(boundaries[i - 1])
  }

  function SliceEnd(boundaries: seq<int>, i: nat): Option<int>
    requires i <= |boundaries|
  {
    if i == |boundaries| then None else Some(boundaries[i])
  }

  ghost predicate KeyInSlice(boundaries: seq<int>, i: nat, key: int)
  {
    i <= |boundaries| && InSlice(SliceStart(boundaries, i), SliceEnd(boundaries, i), key)
  }

  /** Every user key lies in exactly one slice. */
  lemma {:induction false} ExactlyOneSlice(boundaries: seq<int>, key: int) returns (i: nat)
    requires StrictlyIncreasing(boundaries)
    ensures KeyInSlice(boundaries, i, key)
    ensures forall j: nat :: KeyInSlice(boundaries, j, key) ==> j == i
  {
    i := 0;
    while i < |boundaries| && boundaries[i] <= key
      invariant i <= |boundaries|
      invariant forall k :: 0 <= k < i ==> boundaries[k] <= key
    {
      i := i + 1;
    }
  }

  function Flatten(outs: seq<seq<Record>>): seq<Record>
  {
    if outs == [] then [] else Flatten(outs[..|outs| - 1]) + outs[|outs| - 1]
  }

  /** The first `n` slices, taken together, are one big slice. */
  ghost predicate SlicesDone(job: Job, w: World, boundaries: seq<int>, n: nat, out: seq<Record>)
    requires n <= |boundaries|
  {
    SliceDone(job, w, None, SliceEnd(boundaries, n), out)
  }

  lemma SlicesJoin(job: Job, w: World, mid: int, end: Option<int>, out: seq<Record>, more: seq<Record>)
    requires StrictlyBefore(mid, end)
    requires SliceDone(job, w, None, Some(mid), out) && SliceDone(job, w, Some(mid), end, more)
    ensures SliceDone(job, w, None, end, out + more)
  {
    hide SliceConflicts;
    var all := out + more;
    forall i | 0 <= i < |out| ensures out[i].key < mid {
      assert InSlice(None, Some(mid), out[i].key);
    }
    forall i | 0 <= i < |more| ensures mid <= more[i].key {
      assert InSlice(Some(mid), end, more[i].key);
    }
    ConflictsJoin(job, mid, end, out, more);
    forall i, j | 0 <= i < j < |all| ensures Before(all[i], all[j]) {
      if j < |out| {
        assert Before(out[i], out[j]);
      } else if |out| <= i {
        assert Before(more[i - |out|], more[j - |out|]);
      } else {
        assert out[i].key < mid <= more[j - |out|].key;
      }
    }
    forall i | 0 <= i < |all| ensures InSlice(None, end, all[i].key) && Descends(job, w, all[i]) {
      assert all[i] == if i < |out| then out[i] else more[i - |out|];
    }
    forall i | 0 <= i < |all| ensures WorthKeeping(job, all[i]) {
      assert all[i] == if i < |out| then out[i] else more[i - |out|];
    }
    forall i, j | 0 <= i < j < |all| && all[i].key == all[j].key && all[i].key !in w.singleDeleteKeys
      ensures ToldApart(job, all[i], all[j])
    {
      if j < |out| {
        assert ToldApart(job, out[i], out[j]);
      } else {
        assert mid <= more[j - |out|].key;
        assert |out| <= i;
        assert ToldApart(job, more[i - |out|], more[j - |out|]);
      }
    }
    forall key, at | InSlice(None, end, key) && Observes(job.snapshots, at)
      ensures Get(all + w.deeper, key, at) == Get(job.input + w.deeper, key, at)
    {
      if key < mid {
        assert InSlice(None, Some(mid), key);
        MiddleUnread(out, more, w.deeper, key, at);
      } else {
        assert InSlice(Some(mid), end, key);
        PrefixUnread(out, more + w.deeper, key, at);
        assert out + (more + w.deeper) == all + w.deeper;
      }
    }
    ContractInsert(out, more, w.deeper, w.singleDeleteKeys);
  }

  /** A slice without ends is the whole compaction. */
  lemma WholeSlice(job: Job, w: World, out: seq<Record>)
    requires Legal(job, w) && SliceDone(job, w, None, None, out)
    ensures SameReads(out + w.deeper, job.input + w.deeper, job.snapshots)
    ensures Legal(job.(input := out), w) && forall key :: SameConflicts(job, out, key)
  {
    hide SameConflicts;
    forall key ensures SameConflicts(job, out, key) {
      assert InSlice(None, None, key);
    }
    forall key, at | Observes(job.snapshots, at)
      ensures Get(out + w.deeper, key, at) == Get(job.input + w.deeper, key, at)
    {
      assert InSlice(None, None, key);
    }
    forall r, x | r in w.deeper && x in out && r.key == x.key ensures r.seqno < x.seqno {
      var i :| 0 <= i < |out| && out[i] == x;
      assert Descends(job, w, out[i]);
    }
    forall i | 0 <= i < |out|
      ensures out[i].seqno <= MAX_SEQUENCE
      ensures job.compaction.Some? && AbsentBelow(job.compaction.value, out[i].key) ==> NoKey(w.deeper, out[i].key)
    {
      assert Descends(job, w, out[i]);
      var k :| 0 <= k < |job.input| && Renders(job, job.input[k], out[i]);
      assert job.input[k] in job.input;
    }
  }

  /** The whole compaction, split at `boundaries` (none: not split at all): the
      slices' outputs together read like the input at every snapshot and at the
      tip, are sorted, and can be compacted again. */
  method Compact(job: Job, ghost w: World, boundaries: seq<int>) returns (outs: seq<seq<Record>>)
    requires Legal(job, w) && StrictlyIncreasing(boundaries)
    ensures |outs| == |boundaries| + 1
    ensures SameReads(Flatten(outs) + w.deeper, job.input + w.deeper, job.snapshots)
    ensures Sorted(Flatten(outs))
    ensures forall i :: 0 <= i < |Flatten(outs)| ==> Descends(job, w, Flatten(outs)[i])
    ensures AllWorthKeeping(job, Flatten(outs)) && Separated(job, w, Flatten(outs))
    ensures Legal(job.(input := Flatten(outs)), w)
    ensures forall key :: SameConflicts(job, Flatten(outs), key)
  {
    hide SameConflicts;
    var first := CompactSlice(job, w, None, SliceEnd(boundaries, 0));
    outs := [first];
    assert Flatten(outs) == first by {
      assert outs[..0] == [] && Flatten(outs[..0]) == [];
    }
    for i := 1 to |boundaries| + 1
      invariant |outs| == i
      invariant SlicesDone(job, w, boundaries, i - 1, Flatten(outs))
    {
      var out := CompactSlice(job, w, SliceStart(boundaries, i), SliceEnd(boundaries, i));
      SlicesJoin(job, w, boundaries[i - 1], SliceEnd(boundaries, i), Flatten(outs), out);
      assert (outs + [out])[..|outs|] == outs;
      outs := outs + [out];
    }
    WholeSlice(job, w, Flatten(outs));
  }
}
