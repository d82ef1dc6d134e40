/** What the version tells the picker, and which files it can take. */
module PickerDemands {
  import opened CompactionFiles
  import opened CleanCuts

  datatype Reason = MarkedForCompaction | Bottommost | ExpiredTtl

  datatype Place = Place(level: nat, index: nat)

  /** A level and whether its score asks for compaction. */
  datatype Score = Score(level: nat, due: bool)

  /** `order` and `next` are the files by priority and where to start, for each level. */
  datatype Demand = Demand(scores: seq<Score>, order: seq<seq<nat>>, next: seq<nat>, trigger: nat, limit: nat,
                           marked: seq<Place>, random: nat, bottommost: seq<Place>, expired: seq<Place>,
                           nonEmptyLevels: nat)

  function Listed(d: Demand, reason: Reason): seq<Place>
  {
    match reason
    case MarkedForCompaction => d.marked
    case Bottommost => d.bottommost
    case ExpiredTtl => d.expired
  }

  /** Where the initial files of a compaction were found: by size, at a place of the list of levels and then of the
      level's files; the newest files of level 0; the marked file tried first; or at a place of a list. */
  datatype Origin =
    | BySize(score: nat, place: nat)
    | WithinLevel0(score: nat, files: nat)
    | AtRandom
    | InList(reason: Reason, place: nat)
    | Nowhere

  /** A listed file is there and not being compacted; only a bottommost one may be on the last level. */
  predicate PlaceOk(levels: seq<seq<File>>, busy: set<nat>, reason: Reason, p: Place)
  {
    && p.level < |levels| && p.index < |levels[p.level]| && levels[p.level][p.index].number !in busy
    && (reason != Bottommost ==> p.level + 1 < |levels|)
  }

  /** The least clean cut around one file; on level 0 the file alone. */
  function CutOfFile(files: seq<File>, level: nat, index: nat): (cut: seq<File>)
    requires index < |files|
    ensures files[index] in cut
  {
    if level == 0 then [files[index]]
    else
      var a, b := LeastLow(files, index), LeastHigh(files, index + 1);
      assert files[a..b][index - a] == files[index];
      files[a..b]
  }

  /** The file and its cut are free, nothing running writes to its range, and the output level's cut is free. */
  ghost predicate Eligible(levels: seq<seq<File>>, busy: set<nat>, running: seq<Compaction>, level: nat, index: nat,
                           output: nat)
  {
    && level < |levels| && output < |levels| && index < |levels[level]| && levels[level][index].number !in busy
    && var cut := CutOfFile(levels[level], level, index);
    && !AnyBusy(cut, busy) && !Conflicts(running, Hull(cut), output)
    && SortedLevel(levels[output]) && !AnyBusy(CutAround(levels[output], Hull(cut)), busy)
  }

  /** A listed file can be taken: not from a busy level 0, its cut free, and not expired on the last level in use. */
  ghost predicate Usable(levels: seq<seq<File>>, busy: set<nat>, level0Running: seq<Compaction>, reason: Reason,
                         p: Place, nonEmptyLevels: nat)
  {
    && p.level < |levels| && p.index < |levels[p.level]|
    && !(reason == ExpiredTtl && p.level + 1 == nonEmptyLevels)
    && !(reason != Bottommost && p.level == 0 && level0Running != [])
    && !AnyBusy(CutOfFile(levels[p.level], p.level, p.index), busy)
  }

  ghost predicate NoneUsable(levels: seq<seq<File>>, busy: set<nat>, level0Running: seq<Compaction>, reason: Reason,
                             list: seq<Place>, nonEmptyLevels: nat)
  {
    forall i :: 0 <= i < |list| ==> !Usable(levels, busy, level0Running, reason, list[i], nonEmptyLevels)
  }

  /** Level 0 came before and was due. */
  predicate Level0Due(d: Demand, i: nat)
    requires i <= |d.scores|
  {
    exists j :: 0 <= j < i && d.scores[j].due && d.scores[j].level == 0
  }

  predicate DemandOk(levels: seq<seq<File>>, busy: set<nat>, d: Demand)
  {
    && |d.order| == |levels| == |d.next|
    && (forall i :: 0 <= i < |d.scores| ==> d.scores[i].level + 1 < |levels|)
    && (forall l, i :: 0 <= l < |levels| && 0 <= i < |d.order[l]| ==> d.order[l][i] < |levels[l]|)
    && (forall i :: 0 <= i < |d.marked| ==> PlaceOk(levels, busy, MarkedForCompaction, d.marked[i]))
    && (d.marked != [] ==> d.random < |d.marked|)
    && (forall i :: 0 <= i < |d.bottommost| ==> PlaceOk(levels, busy, Bottommost, d.bottommost[i]))
    && (forall i :: 0 <= i < |d.expired| ==> PlaceOk(levels, busy, ExpiredTtl, d.expired[i]))
  }

  const MIN_FILES := 4
  const MAX_BYTES := 0xFFFF_FFFF_FFFF_FFFF

  /** The work for one file less, when the first `n` files are merged into one. */
  function PerFile(files: seq<File>, n: nat): nat
    requires n <= |files|
  {
    if n <= 1 then MAX_BYTES else TotalSize(files[..n]) / (n - 1)
  }

  ghost predicate LongestSpan(files: seq<File>, busy: set<nat>, n: nat)
  {
    && 1 <= n <= |files| && (forall i :: 0 <= i < n ==> files[i].number !in busy)
    && (forall k :: 1 <= k < n ==> PerFile(files, k + 1) <= PerFile(files, k))
    && (n == |files| || files[n].number in busy || PerFile(files, n + 1) > PerFile(files, n))
  }

  method FindSpan(files: seq<File>, busy: set<nat>) returns (span: nat)
    requires files != [] && files[0].number !in busy
    ensures LongestSpan(files, busy, span)
  {
    var bytes, perFile := files[0].size, MAX_BYTES;
    span := 1;
    assert files[..1][..0] == [] && TotalSize(files[..1]) == files[0].size;
    while span < |files|
      invariant 1 <= span <= |files| && forall i :: 0 <= i < span ==> files[i].number !in busy
      invariant bytes == TotalSize(files[..span]) && perFile == PerFile(files, span)
      invariant forall k :: 1 <= k < span ==> PerFile(files, k + 1) <= PerFile(files, k)
    {
      assert files[..span + 1][..span] == files[..span];
      bytes := bytes + files[span].size;
      if files[span].number in busy || bytes / span > perFile {
        break;
      }
      perFile := bytes / span;
      span := span + 1;
    }
  }
}
