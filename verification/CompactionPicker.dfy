/** Picking compactions so that those running at one time stay apart. */
module CompactionPickers {
  import opened Records
  import opened CompactionFiles
  import opened CleanCuts
  import opened SanitizeInputs
  import opened RunningCompactions
  import opened PickerDemands
  import opened FileRequests

  function OutputFiles(c: Compaction): seq<File>
  {
    if |c.inputs| > 1 then c.inputs[1].files else []
  }

  ghost predicate CutOf(files: seq<File>, chosen: seq<File>)
  {
    exists a: nat, b: nat :: CleanCut(files, a, b) && chosen == files[a..b]
  }

  /** No user key of a deeper start level is torn apart, no overlapping file of level 0 stays behind, and
      every file of the output level that meets the inputs takes part. */
  ghost predicate Sound(levels: seq<seq<File>>, c: Compaction)
  {
    && 0 < |c.inputs| <= 2 && c.startLevel == c.inputs[0].level <= c.outputLevel < |levels| && c.inputs[0].files != []
    && (c.startLevel > 0 ==> CutOf(levels[c.startLevel], c.inputs[0].files))
    && (c.startLevel == 0 && c.outputLevel > 0 ==> Covers(levels[0], c.inputs[0].files, Hull(c.inputs[0].files)))
    && (c.startLevel < c.outputLevel ==> Covers(levels[c.outputLevel], OutputFiles(c), Hull(c.inputs[0].files)))
  }

  lemma TwoLevels(levels: seq<seq<File>>, busy: set<nat>, chosen: InputFiles, outputs: InputFiles, a: nat, b: nat,
                  c: nat, d: nat)
    requires LevelsOk(levels) && Chosen(levels, chosen, a, b) && !AnyBusy(chosen.files, busy)
    requires outputs.files != [] ==> Chosen(levels, outputs, c, d) && chosen.level < outputs.level
    requires !AnyBusy(outputs.files, busy)
    ensures var inputs := if outputs.files == [] then [chosen] else [chosen, outputs];
            InputsOk(levels, inputs) && NumbersOf(inputs) !! busy && AllFiles(inputs) == chosen.files + outputs.files
  {
    hide AllFiles, SortedLevel, AnyBusy;
    ChosenSorted(levels, chosen, a, b);
    FilesOfTwo(chosen, outputs);
    if outputs.files != [] {
      ChosenSorted(levels, outputs, c, d);
    }
    NotMarked(chosen.files, busy);
    NotMarked(outputs.files, busy);
  }

  /** The inputs of a compaction from these files: themselves or more, and what goes along on the output level. */
  function InputsFor(levels: seq<seq<File>>, busy: set<nat>, start: InputFiles, outputLevel: nat, limit: nat)
    : (inputs: seq<InputFiles>)
    requires LevelsOk(levels) && start.level <= outputLevel < |levels| && start.files != []
  {
    var chosen := start.(files := Expanded(levels, busy, start, outputLevel, limit));
    var outputs := OutputsFor(levels, start, outputLevel);
    if outputs == [] then [chosen] else [chosen, InputFiles(outputLevel, outputs)]
  }

  lemma InputsWithin(levels: seq<seq<File>>, busy: set<nat>, start: InputFiles, limit: nat)
    requires LevelsOk(levels) && start.level < |levels| && start.files != []
    ensures InputsFor(levels, busy, start, start.level, limit) == [start]
  {
    hide LevelsOk;
  }

  /** A file that has to go along on the output level is taken, or something that runs with that output level
      writes to the range of the inputs. */
  ghost predicate Blocked(levels: seq<seq<File>>, busy: set<nat>, running: seq<Compaction>, start: InputFiles,
                          outputLevel: nat, limit: nat)
    requires LevelsOk(levels) && start.level <= outputLevel < |levels| && start.files != []
  {
    || AnyBusy(OutputsFor(levels, start, outputLevel), busy)
    || Conflicts(running, Hull(Expanded(levels, busy, start, outputLevel, limit) +
                               OutputsFor(levels, start, outputLevel)), outputLevel)
  }

  /** Files of level 0 with all that have to go along from there. */
  function Gathered(levels: seq<seq<File>>, start: InputFiles, outputLevel: nat): InputFiles
    requires levels != [] && start.files != []
  {
    if start.level == 0 && outputLevel != 0 then InputFiles(0, OverlappingL0(levels[0], Hull(start.files))) else start
  }

  lemma NoneBusy(busy: set<nat>)
    ensures !AnyBusy([], busy)
  {
  }

  lemma BlockedBelow(levels: seq<seq<File>>, busy: set<nat>, running: seq<Compaction>, start: InputFiles,
                     outputLevel: nat, limit: nat)
    requires LevelsOk(levels) && start.level < outputLevel < |levels| && start.files != []
    requires AnyBusy(Overlapping(levels[outputLevel], Hull(start.files)), busy)
    ensures Blocked(levels, busy, running, start, outputLevel, limit)
  {
    hide LevelsOk, AnyBusy, Hull, Conflicts, Low, High, LeastLow, LeastHigh, Expanded;
    LevelSorted(levels, outputLevel);
    var files, r := levels[outputLevel], Hull(start.files);
    var x, y := Low(files, r.lo), High(files, r.hi);
    if x < y {
      BusyGrows(files, x, y, LeastLow(files, x), LeastHigh(files, y), busy);
    } else {
      NoneBusy(busy);
    }
  }

  /** A clean cut holds what begins before the file after it. */
  lemma CutTakes(files: seq<File>, a: nat, b: nat, x: nat, z: nat)
    requires SortedLevel(files) && a <= x < b <= |files| && x < z <= |files|
    requires b < |files| ==> files[b - 1].largest < files[b].smallest
    ensures forall f :: f in files[x..z] && (b < |files| ==> f.smallest < files[b].smallest) ==> f in files[a..b]
    ensures b < |files| ==> files[x..z][0].largest < files[b].smallest
    ensures b < |files| ==> files[b] in files
  {
    forall f | f in files[x..z] && (b < |files| ==> f.smallest < files[b].smallest) ensures f in files[a..b] {
      var i :| 0 <= i < z - x && files[x..z][i] == f;
      assert f == files[x + i];
      assert x + i < b ==> files[a..b][x + i - a] == f;
    }
  }

  lemma ChosenRun(levels: seq<seq<File>>, start: InputFiles, a: nat, b: nat)
    requires Chosen(levels, start, a, b) && start.level > 0
    ensures start.files == levels[start.level][a..b] && a < b <= |levels[start.level]|
    ensures b < |levels[start.level]| ==> levels[start.level][b - 1].largest < levels[start.level][b].smallest
  {
  }

  /** Past a clean cut come the files that begin after its last key. */
  lemma CutEnd(files: seq<File>, a: nat, b: nat)
    requires SortedLevel(files) && CleanCut(files, a, b)
    ensures High(files, files[b - 1].largest) == b
  {
    hide High;
    assert files[b - 1].smallest <= files[b - 1].largest;
  }

  lemma TopFiles(levels: seq<seq<File>>)
    requires LevelsOk(levels) && 0 < |levels|
    ensures forall f :: f in levels[0] ==> f.smallest <= f.largest
  {
  }

  /** The files from the first one on, until they have the size of the limit. */
  ghost predicate UpToLimit(all: seq<File>, files: seq<File>, limit: nat)
  {
    && files <= all && (files == [] <==> all == [])
    && (files != all ==> TotalSize(files) >= limit)
    && forall n :: 0 < n < |files| ==> TotalSize(all[..n]) < limit
  }

  method FitLimit(files: seq<File>, limit: nat) returns (n: nat)
    ensures n <= |files| && UpToLimit(files, files[..n], limit)
  {
    var total, i := 0, 0;
    n := |files|;
    assert files[..n] == files;
    while i + 1 < |files|
      invariant i <= |files| && total == TotalSize(files[..i]) && (files != [] ==> i < |files|)
      invariant forall k :: 0 < k <= i ==> TotalSize(files[..k]) < limit
    {
      assert files[..i + 1][..i] == files[..i];
      total := total + files[i].size;
      if total >= limit {
        return i + 1;
      }
      i := i + 1;
    }
  }

  function LargestKey(files: seq<File>): (k: nat)
    ensures forall f :: f in files ==> f.largest <= k
  {
    if files == [] then 0
    else
      var k, f := LargestKey(files[..|files| - 1]), files[|files| - 1];
      assert files == files[..|files| - 1] + [f];
      if k < f.largest then f.largest else k
  }

  function KeyRange(files: seq<File>, begin: Option<nat>, end: Option<nat>): Range
  {
    Range(if begin.Some? then begin.value else 0, if end.Some? then end.value else LargestKey(files))
  }

  lemma OutputsTaken(levels: seq<seq<File>>, busy: set<nat>, start: InputFiles, outputLevel: nat)
    requires LevelsOk(levels) && start.level <= outputLevel < |levels| && start.files != []
    ensures AnyBusy(OutputsFor(levels, start, outputLevel), busy) <==>
              start.level != outputLevel && AnyBusy(CutAround(levels[outputLevel], Hull(start.files)), busy)
  {
    hide CutAround, Hull;
  }

  lemma CutFacts(levels: seq<seq<File>>, chosen: InputFiles, a: nat, b: nat)
    requires Chosen(levels, chosen, a, b)
    ensures chosen.level < |levels| && chosen.files != []
    ensures chosen.level > 0 ==> CutOf(levels[chosen.level], chosen.files)
  {
  }

  lemma SoundInputs(levels: seq<seq<File>>, busy: set<nat>, chosen: InputFiles, outputs: InputFiles, a: nat, b: nat,
                    id: nat)
    requires Chosen(levels, chosen, a, b) && chosen.level <= outputs.level < |levels|
    requires chosen.level == 0 ==> Covers(levels[0], chosen.files, Hull(chosen.files))
    requires chosen.level == outputs.level ==> outputs.files == []
    requires chosen.level < outputs.level ==> Complete(levels, busy, chosen, outputs)
    ensures var inputs := if outputs.files == [] then [chosen] else [chosen, outputs];
            forall r :: Sound(levels, Compaction(id, inputs, chosen.level, outputs.level, r))
  {
    hide Hull;
    CutFacts(levels, chosen, a, b);
  }

  lemma TopChosen(levels: seq<seq<File>>, r: Range)
    requires LevelsOk(levels) && 0 < |levels| && OverlappingL0(levels[0], r) != []
    ensures var inputs := InputFiles(0, OverlappingL0(levels[0], r));
            Chosen(levels, inputs, 0, 0) && Covers(levels[0], inputs.files, Hull(inputs.files))
  {
    hide Hull, ClosedRange, Meeting, NoTwice;
    StartClosed(levels, r);
    var files := levels[0];
    assert files[0..|files|] == files;
    LevelNoTwice(levels, 0, 0, |files|);
    MeetingNoTwice(files, ClosedRange(files, r));
  }

  // ----- the picker

  datatype FilesResult = Refused(status: Status) | AssertionFails | Formed(c: Compaction)

  class CompactionPicker {
    var levels: seq<seq<File>>
    var baseLevel: nat                    // where level 0 is compacted to; the levels between are empty
    var busy: set<nat>                    // numbers of the files marked as being compacted
    var running: seq<Compaction>
    var level0Running: seq<Compaction>
    var nextId: nat

    ghost predicate Valid()
      reads this
    {
      && StateOk(levels, busy, running, level0Running, nextId)
      && 0 < baseLevel < |levels| && forall l :: 0 < l < baseLevel ==> levels[l] == []
    }

    constructor (levels: seq<seq<File>>, baseLevel: nat)
      requires LevelsOk(levels) && 0 < baseLevel < |levels| && forall l :: 0 < l < baseLevel ==> levels[l] == []
      ensures Valid() && running == [] && this.levels == levels
    {
      this.levels, this.baseLevel := levels, baseLevel;
      busy, running, level0Running, nextId := {}, [], [], 0;
    }

    /** The levels change by a flush, an ingestion or the result of a compaction, which is still registered then. */
    method Install(levels: seq<seq<File>>, baseLevel: nat)
      requires Valid() && LevelsOk(levels)
      requires 0 < baseLevel < |levels| && forall l :: 0 < l < baseLevel ==> levels[l] == []
      requires forall i :: 0 <= i < |running| ==> NotRaised(levels, running[i].inputs)
      modifies this`levels, this`baseLevel
      ensures Valid() && this.levels == levels && this.baseLevel == baseLevel
    {
      hide LevelsOk, CompactionOk, AllApart, Marked, FromLevel0, NotRaised;
      assert forall i :: 0 <= i < |running| ==> Registered(this.levels, running[i]);
      this.levels, this.baseLevel := levels, baseLevel;
    }

    /** MarkFilesBeingCompacted, with its assertion that no mark is set, or cleared, twice; `was` are the levels
        the inputs were picked from. */
    method MarkFiles(inputs: seq<InputFiles>, mark: bool, ghost was: seq<seq<File>>)
      requires LevelsOk(was) && InputsOk(was, inputs)
      requires if mark then NumbersOf(inputs) !! busy else NumbersOf(inputs) <= busy
      modifies this`busy
      ensures busy == if mark then old(busy) + NumbersOf(inputs) else old(busy) - NumbersOf(inputs)
    {
      hide LevelsOk, InputsOk, NumbersOf, NumbersIn;
      NoNumbers(inputs);
      for i := 0 to |inputs|
        invariant busy == if mark then old(busy) + NumbersOf(inputs[..i]) else old(busy) - NumbersOf(inputs[..i])
      {
        var files := inputs[i].files;
        NoNumbersIn(files);
        for j := 0 to |files|
          invariant var done := NumbersOf(inputs[..i]) + NumbersIn(files[..j]);
                    busy == if mark then old(busy) + done else old(busy) - done
        {
          FreshMark(was, inputs, i, j);
          NumbersSnoc(files, j);
          InNumbers(inputs, i, j);
          assert if mark then files[j].number !in busy else files[j].number in busy;
          busy := if mark then busy + {files[j].number} else busy - {files[j].number};
        }
        assert files[..|files|] == files;
        NumbersStep(inputs, i);
      }
      assert inputs[..|inputs|] == inputs;
    }

    /** The same where assertions are compiled out: the compaction is registered whatever is in the way. */
    method Register(inputs: seq<InputFiles>, outputLevel: nat) returns (c: Compaction)
      requires Valid() && InputsOk(levels, inputs) && AllFiles(inputs) != [] && NumbersOf(inputs) !! busy
      modifies this`busy, this`running, this`level0Running, this`nextId
      ensures running == old(running) + [c] && busy == old(busy) + NumbersOf(inputs)
      ensures c == Compaction(old(nextId), inputs, inputs[0].level, outputLevel, Hull(AllFiles(inputs)))
      ensures Valid() <==> outputLevel == 0 || !Conflicts(old(running), Hull(AllFiles(inputs)), outputLevel)
    {
      hide LevelsOk, NumbersOf, Hull, AllFiles, Conflicts, Marked, FromLevel0, AllApart;
      MarkFiles(inputs, true, levels);
      var range := GetBoundaryKeys(inputs);
      c := Compaction(nextId, inputs, inputs[0].level, outputLevel, range);
      if outputLevel == 0 || !Conflicts(running, range, outputLevel) {
        Joined(levels, old(busy), running, level0Running, nextId, c);
      } else {
        NotJoined(levels, busy, running, if c.startLevel == 0 then level0Running + [c] else level0Running,
                  nextId + 1, c);
      }
      nextId := nextId + 1;
      if c.startLevel == 0 {
        level0Running := level0Running + [c];
      }
      running := running + [c];
    }

    /** Makes a compaction: marks its files, finds its key range and registers it. RegisterCompaction's
        assertion, that nothing that runs is in the way, holds. */
    method Form(inputs: seq<InputFiles>, outputLevel: nat) returns (c: Compaction)
      requires Valid() && InputsOk(levels, inputs) && AllFiles(inputs) != [] && NumbersOf(inputs) !! busy
      requires outputLevel != 0 ==> !Conflicts(running, Hull(AllFiles(inputs)), outputLevel)
      modifies this`busy, this`running, this`level0Running, this`nextId
      ensures Valid() && running == old(running) + [c]
      ensures c == Compaction(old(nextId), inputs, inputs[0].level, outputLevel, Hull(AllFiles(inputs)))
    {
      hide LevelsOk, NumbersOf, Hull, AllFiles, Conflicts, StateOk;
      InputsFacts(levels, inputs);
      var overlap := FilesRangeOverlapWithCompaction(running, inputs, outputLevel);
      assert outputLevel == 0 || !overlap;
      c := Register(inputs, outputLevel);
    }

    method Unregister(c: Compaction, ghost was: seq<seq<File>>)
      requires LevelsOk(was) && CompactionOk(was, c) && NumbersOf(c.inputs) <= busy
      modifies this`busy, this`running, this`level0Running
      ensures busy == old(busy) - NumbersOf(c.inputs) && running == Without(old(running), c.id)
      ensures level0Running == if c.startLevel == 0 then Without(old(level0Running), c.id) else old(level0Running)
    {
      hide LevelsOk, NumbersOf, Hull, AllFiles, Without;
      MarkFiles(c.inputs, false, was);
      if c.startLevel == 0 {
        level0Running := Without(level0Running, c.id);
      }
      running := Without(running, c.id);
    }

    /** A compaction ends, its result installed or not: it is unregistered and its files' marks are cleared. */
    method Release(ghost k: nat, c: Compaction)
      requires Valid() && k < |running| && running[k] == c
      modifies this`busy, this`running, this`level0Running
      ensures Valid() && running == Without(old(running), c.id) && busy == old(busy) - NumbersOf(c.inputs)
    {
      hide LevelsOk, NumbersOf, Hull, AllFiles, Marked, FromLevel0, AllApart, Without, CompactionOk, NotRaised;
      Left(levels, busy, running, level0Running, nextId, k);
      assert Registered(levels, running[k]);
      ghost var was :| LevelsOk(was) && CompactionOk(was, c);
      Unregister(c, was);
    }

    /** A compaction's result is installed and the compaction released with nothing between. In a group of manifest
        writes another thread may get the mutex in between, so that the two come apart. */
    method InstallResult(ghost k: nat, c: Compaction, levels: seq<seq<File>>, baseLevel: nat)
      requires Valid() && k < |running| && running[k] == c && LevelsOk(levels)
      requires 0 < baseLevel < |levels| && forall l :: 0 < l < baseLevel ==> levels[l] == []
      requires forall i :: 0 <= i < |running| ==> NotRaised(levels, running[i].inputs)
      modifies this`busy, this`running, this`level0Running, this`levels, this`baseLevel
      ensures Valid() && this.levels == levels && this.baseLevel == baseLevel
      ensures running == Without(old(running), c.id) && busy == old(busy) - NumbersOf(c.inputs)
    {
      hide LevelsOk, NumbersOf, NotRaised, StateOk;
      Install(levels, baseLevel);
      Release(k, c);
    }

    // ----- from the files of the start level to a compaction

    lemma StateLevels(levels: seq<seq<File>>, busy: set<nat>, running: seq<Compaction>, level0: seq<Compaction>,
                      nextId: nat)
      requires StateOk(levels, busy, running, level0, nextId)
      ensures LevelsOk(levels)
    {
    }

    /** Chooses the output level's files and makes the compaction unless another one is in the way.
        A manual compaction looks at the marks once more, but finds none. */
    method Finish(start: InputFiles, outputLevel: nat, limit: nat, manual: bool, ghost a: nat, ghost b: nat)
      returns (c: Option<Compaction>)
      requires Valid() && Chosen(levels, start, a, b) && !AnyBusy(start.files, busy)
      requires start.level <= outputLevel < |levels|
      requires forall l :: start.level < l < outputLevel ==> levels[l] == []
      requires start.level == 0 ==> Covers(levels[0], start.files, Hull(start.files))
      modifies this`busy, this`running, this`level0Running, this`nextId
      ensures Valid()
      ensures c.Some? ==> running == old(running) + [c.value] && Sound(levels, c.value)
      ensures c.Some? ==> c.value.inputs == old(InputsFor(levels, busy, start, outputLevel, limit))
      ensures c.Some? ==> c.value.startLevel == start.level && c.value.outputLevel == outputLevel
      ensures c.Some? ==> Contains(c.value.inputs[0].files, start.files)
      // refused exactly for what runs already
      ensures c.None? <==> old(Blocked(levels, busy, running, start, outputLevel, limit))
      ensures c.None? ==> running == old(running) && busy == old(busy)
    {
      hide StateOk, Hull, AllFiles, NumbersOf, LevelsOk, SortedLevel, Chosen, AnyBusy, InputsOk, Complete, Sound,
           Conflicts, Expanded, OutputsFor;
      StateLevels(levels, busy, running, level0Running, nextId);
      ChosenSorted(levels, start, a, b);
      var ok, chosen, outputs;
      ghost var a', b', x, y;
      ok, chosen, outputs, a', b', x, y := SetupOtherInputs(levels, busy, start, outputLevel, limit, a, b);
      OutputsTaken(levels, busy, start, outputLevel);
      if !ok {
        return None;
      }
      TwoLevels(levels, busy, chosen, outputs, a', b', x, y);
      var inputs := if outputs.files == [] then [chosen] else [chosen, outputs];
      ChosenSorted(levels, chosen, a', b');
      if manual {
        for i := 0 to |inputs|
          invariant Valid() && unchanged(this)
        {
          var any := AreFilesInCompaction(inputs[i].files, busy);
          assert !any;
        }
      }
      InputsFacts(levels, inputs);
      var overlap := FilesRangeOverlapWithCompaction(running, inputs, outputLevel);
      if overlap {
        return None;
      }
      SoundInputs(levels, busy, chosen, outputs, a', b', nextId);
      var made := Form(inputs, outputLevel);
      c := Some(made);
    }

    /** The files of a level that meet the range. */
    ghost function InRange(level: nat, begin: Option<nat>, end: Option<nat>): seq<File>
      requires level < |levels|
      reads this`levels
    {
      OverlappingInputs(level, levels[level], KeyRange(levels[level], begin, end))
    }

    /** In a level below 0 they are a run from file `x` on. */
    ghost predicate StartsAt(level: nat, begin: Option<nat>, end: Option<nat>, x: nat)
      requires level < |levels|
      reads this`levels
    {
      exists y: nat :: x <= y <= |levels[level]| && InRange(level, begin, end) == levels[level][x..y]
    }

    /** The files of a level that meet the range, in one shot only as many as the limit allows. */
    method StartOfRange(inputLevel: nat, begin: Option<nat>, end: Option<nat>, limit: nat)
      returns (inputs: InputFiles, whole: bool, ghost x: nat, ghost y: nat)
      requires Valid() && inputLevel < |levels|
      // cut off where the limit is reached, but never on level 0
      ensures inputs.level == inputLevel
      ensures if inputLevel == 0 then inputs.files == InRange(0, begin, end)
              else UpToLimit(InRange(inputLevel, begin, end), inputs.files, limit)
      ensures whole <==> inputs.files == InRange(inputLevel, begin, end)
      ensures inputs.files != [] && inputLevel > 0 ==>
                && x < y <= |levels[inputLevel]| && inputs.files == levels[inputLevel][x..y]
                && StartsAt(inputLevel, begin, end, x)
      ensures inputs.files != [] && inputLevel == 0 ==>
                Chosen(levels, inputs, 0, 0) && Covers(levels[0], inputs.files, Hull(inputs.files))
    {
      hide StateOk, Hull, LevelsOk, ClosedRange, Meeting, Low, High, KeyRange, UpToLimit;
      StateLevels(levels, busy, running, level0Running, nextId);
      var files, r := levels[inputLevel], KeyRange(levels[inputLevel], begin, end);
      inputs := InputFiles(inputLevel, OverlappingInputs(inputLevel, files, r));
      x, y, whole := Low(files, r.lo), High(files, r.hi), true;
      if inputLevel == 0 {
        if inputs.files != [] {
          TopChosen(levels, r);
        }
      } else {
        var n := FitLimit(inputs.files, limit);
        assert inputs.files != [] ==> files[x..y][..n] == files[x..x + n];
        whole := n == |inputs.files|;
        inputs, y := inputs.(files := inputs.files[..n]), x + n;
      }
    }

    /** The files a compaction of the range starts from: those that meet it, up to the limit and with what keeps user
        keys together, but on level 0 all of them. */
    ghost predicate IsStart(level: nat, begin: Option<nat>, end: Option<nat>, limit: nat, start: InputFiles)
      requires level < |levels|
      reads this`levels
    {
      && start.level == level && start.files != []
      && if level == 0 then start.files == InRange(0, begin, end)
         else exists x: nat, y: nat :: x < y <= |levels[level]|
                && UpToLimit(InRange(level, begin, end), levels[level][x..y], limit)
                && start.files == levels[level][LeastLow(levels[level], x)..LeastHigh(levels[level], y)]
    }

    /** Why a range is not compacted now: level 0 is taken, or a file of the cut, or what it needs besides. */
    ghost predicate Hindered(start: InputFiles, output: nat, limit: nat)
      requires LevelsOk(levels) && start.level <= output < |levels| && start.files != []
      reads this
    {
      || (start.level == 0 && level0Running != []) || AnyBusy(start.files, busy)
      || Blocked(levels, busy, running, start, output, limit)
    }

    function Target(to: Option<nat>): nat
      reads this`baseLevel
    {
      if to.None? then baseLevel else to.value
    }

    /** The next file's first key, if the range goes on and there is one. */
    method EndOf(start: InputFiles, whole: bool, ghost a: nat, ghost b: nat) returns (reached: Option<nat>)
      requires Valid() && Chosen(levels, start, a, b) && (start.level == 0 ==> whole)
      ensures reached == if whole || b == |levels[start.level]| then None else Some(levels[start.level][b].smallest)
    {
      hide StateOk, Hull, LevelsOk, High;
      if whole {
        return None;
      }
      StateLevels(levels, busy, running, level0Running, nextId);
      LevelSorted(levels, start.level);
      var files := levels[start.level];
      assert start.files[|start.files| - 1] == files[b - 1];
      var next := High(files, start.files[|start.files| - 1].largest);
      CutEnd(files, a, b);
      return if next == |files| then None else Some(files[next].smallest);
    }

    /** What the cut takes of the range. */
    lemma RangeTaken(inputLevel: nat, begin: Option<nat>, end: Option<nat>, x: nat, y: nat, start: InputFiles,
                     whole: bool, a: nat, b: nat, reached: Option<nat>)
      requires Valid() && inputLevel < |levels| && Chosen(levels, start, a, b) && start.level == inputLevel
      requires if inputLevel == 0 then whole && start.files == InRange(0, begin, end)
               else x < y <= |levels[inputLevel]| && a <= x && y <= b && StartsAt(inputLevel, begin, end, x)
                    && (whole ==> InRange(inputLevel, begin, end) == levels[inputLevel][x..y])
      requires reached == if whole || b == |levels[inputLevel]| then None else Some(levels[inputLevel][b].smallest)
      requires InRange(inputLevel, begin, end) != []
      ensures reached.None? ==> Contains(start.files, InRange(inputLevel, begin, end))
      ensures reached.Some? ==>
                && InRange(inputLevel, begin, end)[0].largest < reached.value
                && (forall f :: f in InRange(inputLevel, begin, end) && f.smallest < reached.value ==> f in start.files)
                && exists f :: f in levels[inputLevel] && f.smallest == reached.value
    {
      hide StateOk, InRange, LevelsOk, Hull, SortedLevel, Chosen;
      var files, all := levels[inputLevel], InRange(inputLevel, begin, end);
      if inputLevel > 0 {
        StateLevels(levels, busy, running, level0Running, nextId);
        LevelSorted(levels, inputLevel);
        var z: nat :| x <= z <= |files| && all == files[x..z];
        ChosenRun(levels, start, a, b);
        if whole {
          SliceContains(files, a, b, x, y);
        } else {
          CutTakes(files, a, b, x, z);
        }
      }
    }

    /** ExpandInputsToCleanCut; on level 0, where it does nothing, no compaction is running. */
    method CleanAndFree(inputs: InputFiles, ghost x: nat, ghost y: nat)
      returns (ok: bool, start: InputFiles, ghost a: nat, ghost b: nat)
      requires Valid() && inputs.level < |levels| && inputs.files != []
      requires inputs.level > 0 ==> x < y <= |levels[inputs.level]| && inputs.files == levels[inputs.level][x..y]
      requires inputs.level == 0 ==> Chosen(levels, inputs, x, y) && level0Running == []
      ensures start.level == inputs.level && (inputs.level == 0 ==> ok && start == inputs)
      // the least clean cut around the inputs, refused exactly if one of its files is taken
      ensures inputs.level > 0 ==>
                && a == LeastLow(levels[inputs.level], x) && b == LeastHigh(levels[inputs.level], y)
                && start.files == levels[inputs.level][a..b]
      ensures ok <==> !AnyBusy(start.files, busy)
      ensures Contains(start.files, inputs.files) && (ok ==> Chosen(levels, start, a, b))
    {
      hide Hull, LevelsOk, LeastLow, LeastHigh, CompactionOk, SortedLevel;
      StateLevels(levels, busy, running, level0Running, nextId);
      a, b := x, y;
      if inputs.level > 0 {
        LevelSorted(levels, inputs.level);
      }
      ok, start := ExpandInputsToCleanCut(levels, busy, inputs, x, y);
      if inputs.level == 0 {
        forall i | 0 <= i < |start.files| ensures start.files[i].number !in busy {
          Level0Free(levels, busy, running, nextId, start.files[i]);
        }
      } else {
        a, b := LeastLow(levels[inputs.level], x), LeastHigh(levels[inputs.level], y);
        LevelNoTwice(levels, inputs.level, a, b);
        SliceContains(levels[inputs.level], a, b, x, y);
      }
    }

    /** CompactRange in level style; `to` is None for the base level. `reached` is the reported end, None if the
        whole range was taken. */
    method CompactRange(inputLevel: nat, to: Option<nat>, begin: Option<nat>, end: Option<nat>, limit: nat)
      returns (c: Option<Compaction>, conflict: bool, reached: Option<nat>, ghost start: InputFiles)
      requires Valid() && inputLevel < |levels|
      requires if to.None? then inputLevel == 0 else inputLevel <= to.value < |levels|
      requires to.Some? ==> forall l :: inputLevel < l < to.value ==> levels[l] == []
      modifies this`busy, this`running, this`level0Running, this`nextId
      ensures Valid()
      ensures c.Some? ==> running == old(running) + [c.value] && Sound(levels, c.value) && !conflict
      ensures c.None? ==> running == old(running) && busy == old(busy)
      ensures c.Some? ==> c.value.startLevel == inputLevel && c.value.outputLevel == Target(to)
      // nothing to do if the range is empty, and a conflict exactly for what runs already
      ensures c.None? && !conflict <==> InRange(inputLevel, begin, end) == []
      ensures InRange(inputLevel, begin, end) != [] ==> start.level == inputLevel && start.files != []
      ensures InRange(inputLevel, begin, end) != [] ==> (conflict <==> old(Hindered(start, Target(to), limit)))
      ensures c.Some? ==> c.value.inputs == old(InputsFor(levels, busy, start, Target(to), limit))
      ensures InRange(inputLevel, begin, end) != [] ==> IsStart(inputLevel, begin, end, limit, start)
      // it begins with the range, takes all of it on level 0, and all of it before the reported end
      ensures c.Some? ==> InRange(inputLevel, begin, end) != []
      ensures c.Some? ==> InRange(inputLevel, begin, end)[0] in c.value.inputs[0].files
      ensures c.Some? && inputLevel == 0 ==> reached.None?
      ensures c.Some? && reached.None? ==> Contains(c.value.inputs[0].files, InRange(inputLevel, begin, end))
      ensures c.Some? && reached.Some? ==>
                && InRange(inputLevel, begin, end)[0].largest < reached.value
                && (forall f :: f in InRange(inputLevel, begin, end) && f.smallest < reached.value ==>
                      f in c.value.inputs[0].files)
                && exists f :: f in levels[inputLevel] && f.smallest == reached.value
    {
      hide StateOk, Hull, LevelsOk, SortedLevel, LeastLow, LeastHigh, Sound, AnyBusy, InRange, TotalSize, CutOf, Covers,
           Blocked, StartsAt, High, InputsFor;
      reached := None;
      var inputs, whole;
      ghost var x, y;
      inputs, whole, x, y := StartOfRange(inputLevel, begin, end, limit);
      start := inputs;
      if inputs.files == [] {
        return None, false, reached, start;
      }
      assert inputs.files[0] == InRange(inputLevel, begin, end)[0];
      if inputLevel == 0 && level0Running != [] {
        return None, true, reached, start;
      }
      var ok, first;
      ghost var a, b;
      ok, first, a, b := CleanAndFree(inputs, x, y);
      start := first;
      if !ok {
        return None, true, reached, start;
      }
      reached := EndOf(first, whole, a, b);
      RangeTaken(inputLevel, begin, end, x, y, first, whole, a, b, reached);
      c := Finish(first, Target(to), limit, true, a, b);
      conflict := c.None?;
    }

    // ----- LevelCompactionBuilder

    /** Files of a start level to go on with: free, a clean cut below level 0, and alone on level 0. */
    ghost predicate Ready(start: InputFiles, output: nat, a: nat, b: nat)
      reads this
    {
      && Chosen(levels, start, a, b) && !AnyBusy(start.files, busy)
      && start.level <= output < |levels| && (forall l :: start.level < l < output ==> levels[l] == [])
      && (start.level == 0 && output != 0 ==> level0Running == [])
    }

    /** A file by itself, expanded to a clean cut. */
    method StartFrom(level: nat, index: nat) returns (ok: bool, start: InputFiles, ghost a: nat, ghost b: nat)
      requires Valid() && level < |levels| && index < |levels[level]| && levels[level][index].number !in busy
      ensures start == InputFiles(level, CutOfFile(levels[level], level, index))
      ensures ok <==> !AnyBusy(start.files, busy)
      ensures ok ==> Chosen(levels, start, a, b)
    {
      hide Hull, LevelsOk, LeastLow, LeastHigh, StateOk, SortedLevel;
      StateLevels(levels, busy, running, level0Running, nextId);
      var files := levels[level];
      start := InputFiles(level, [files[index]]);
      assert files[index..index + 1] == [files[index]];
      if level > 0 {
        LevelSorted(levels, level);
      }
      ok, start := ExpandInputsToCleanCut(levels, busy, start, index, index + 1);
      a, b := index, index + 1;
      if level > 0 {
        a, b := LeastLow(files, index), LeastHigh(files, index + 1);
        LevelNoTwice(levels, level, a, b);
      }
    }

    /** The level is due, and it is not the base level after level 0 was tried in vain. */
    predicate Searched(d: Demand, i: nat)
      requires i < |d.scores|
      reads this`baseLevel
    {
      d.scores[i].due && !(Level0Due(d, i) && d.scores[i].level == baseLevel)
    }

    function NextLevel(level: nat): nat
      reads this`baseLevel
    {
      if level == 0 then baseLevel else level + 1
    }

    /** No file of the level, from where the last search ended, can be compacted with what it needs. */
    ghost predicate NoneEligible(d: Demand, level: nat)
      requires level < |d.order| == |d.next|
      reads this
    {
      || (level == 0 && level0Running != [])
      || forall i :: d.next[level] <= i < |d.order[level]| ==>
           !Eligible(levels, busy, running, level, d.order[level][i], NextLevel(level))
    }

    /** Nothing running writes there, and the output level's files are free. */
    method CanReach(start: InputFiles, outputLevel: nat, ghost a: nat, ghost b: nat) returns (ok: bool)
      requires Valid() && Chosen(levels, start, a, b) && 0 < outputLevel < |levels|
      ensures ok <==> !Conflicts(running, Hull(start.files), outputLevel) &&
                      !AnyBusy(CutAround(levels[outputLevel], Hull(start.files)), busy)
    {
      hide StateOk, LevelsOk, SortedLevel, Hull, Low, High, LeastLow, LeastHigh, AnyBusy, Conflicts, CutAround;
      StateLevels(levels, busy, running, level0Running, nextId);
      LevelSorted(levels, outputLevel);
      ChosenSorted(levels, start, a, b);
      OneInput(start);
      var overlap := FilesRangeOverlapWithCompaction(running, [start], outputLevel);
      if overlap {
        return false;
      }
      var r := GetRange(start);
      ghost var x, y;
      var outputs;
      ok, outputs, x, y := ChooseOutputs(levels, busy, outputLevel, r);
    }

    /** The first file in order of priority that can be compacted with what it needs on both levels. */
    method PickFileToCompact(startLevel: nat, outputLevel: nat, order: seq<nat>, next: nat)
      returns (start: InputFiles, next': nat, ghost a: nat, ghost b: nat)
      requires Valid() && startLevel < outputLevel < |levels|
      requires forall l :: startLevel < l < outputLevel ==> levels[l] == []
      requires forall i :: 0 <= i < |order| ==> order[i] < |levels[startLevel]|
      ensures start.files != [] ==> start.level == startLevel && Ready(start, outputLevel, a, b)
      // the first eligible file in that order, if there is one and level 0 is not taken
      ensures next <= next' && (start.files != [] ==> next' < |order|)
      ensures startLevel == 0 && level0Running != [] ==> start.files == [] && next' == next
      ensures forall i :: next <= i < next' && i < |order| ==>
                !Eligible(levels, busy, running, startLevel, order[i], outputLevel)
      ensures start.files == [] ==> next' >= |order| || (startLevel == 0 && level0Running != [])
      ensures start.files != [] ==> Eligible(levels, busy, running, startLevel, order[next'], outputLevel)
                                    && start.files == CutOfFile(levels[startLevel], startLevel, order[next'])
    {
      hide StateOk, LevelsOk, SortedLevel, Hull, AllFiles, Low, High, LeastLow, LeastHigh, AnyBusy, Chosen, Conflicts,
           CutOfFile, CutAround;
      start, next', a, b := InputFiles(startLevel, []), next, 0, 0;
      if startLevel == 0 && level0Running != [] {
        return;
      }
      StateLevels(levels, busy, running, level0Running, nextId);
      LevelSorted(levels, outputLevel);
      while next' < |order|
        invariant start == InputFiles(startLevel, []) && next <= next'
        invariant forall i :: next <= i < next' && i < |order| ==>
                    !Eligible(levels, busy, running, startLevel, order[i], outputLevel)
        decreases |order| - next'
      {
        var index := order[next'];
        if levels[startLevel][index].number !in busy {
          var ok;
          ok, start, a, b := StartFrom(startLevel, index);
          if ok {
            ok := CanReach(start, outputLevel, a, b);
          }
          if ok {
            return;
          }
          start := InputFiles(startLevel, []);
        }
        next' := next' + 1;
      }
    }

    /** The longest run of newest free files for which the work per deleted file does not rise. */
    method PickIntraL0Compaction(trigger: nat) returns (start: InputFiles, ghost span: nat)
      requires Valid()
      ensures start.level == 0
      ensures start.files != [] ==> Chosen(levels, start, 0, 0) && !AnyBusy(start.files, busy)
      ensures start.files != [] ==>
                && MIN_FILES <= span <= |levels[0]| && start.files == levels[0][..span]
                && LongestSpan(levels[0], busy, span)
      ensures start.files == [] ==>
                || |levels[0]| < trigger + 2 || levels[0][0].number in busy
                || (LongestSpan(levels[0], busy, span) && (span < MIN_FILES || PerFile(levels[0], span) >= MAX_BYTES))
    {
      hide StateOk, LevelsOk, NoTwice, TotalSize;
      StateLevels(levels, busy, running, level0Running, nextId);
      var files := levels[0];
      start, span := InputFiles(0, []), 0;
      if |files| < trigger + 2 || files[0].number in busy {
        return;
      }
      var n := FindSpan(files, busy);
      span := n;
      if n >= MIN_FILES && PerFile(files, n) < MAX_BYTES {
        start := InputFiles(0, files[..n]);
        LevelNoTwice(levels, 0, 0, n);
        assert files[0..n] == files[..n];
      }
    }

    /** All files of level 0 that a compaction of these must take along. */
    method GetOverlappingL0Files(start: InputFiles, outputLevel: nat, ghost a: nat, ghost b: nat)
      returns (ok: bool, more: InputFiles)
      requires Valid() && start.level == 0 && Chosen(levels, start, a, b) && level0Running == []
      requires 0 < outputLevel < |levels|
      ensures more == InputFiles(0, OverlappingL0(levels[0], Hull(start.files))) && more.files != []
      ensures Chosen(levels, more, 0, 0) && !AnyBusy(more.files, busy)
      ensures Contains(more.files, start.files) && Covers(levels[0], more.files, Hull(more.files))
      // refused exactly if a file of the output level that meets them is taken
      ensures ok <==> !AnyBusy(Overlapping(levels[outputLevel], Hull(more.files)), busy)
    {
      hide LevelsOk, Hull, OverlappingL0, CompactionOk;
      StateLevels(levels, busy, running, level0Running, nextId);
      var r := GetRange(start);
      TopFiles(levels);
      TopMeets(levels[0], start.files, r);
      TopChosen(levels, r);
      more := InputFiles(0, OverlappingL0(levels[0], r));
      forall i | 0 <= i < |more.files| ensures more.files[i].number !in busy {
        Level0Free(levels, busy, running, nextId, more.files[i]);
      }
      var range := GetRange(more);
      var any := AreFilesInCompaction(Overlapping(levels[outputLevel], range), busy);
      ok := !any;
    }

    method PickWithinLevel0(start: InputFiles, ghost a: nat, ghost b: nat) returns (c: Option<Compaction>)
      requires Valid() && start.level == 0 && Chosen(levels, start, a, b) && !AnyBusy(start.files, busy)
      modifies this`busy, this`running, this`level0Running, this`nextId
      ensures Valid() && c.Some? && running == old(running) + [c.value] && Sound(levels, c.value)
      ensures c.value.startLevel == 0 && c.value.outputLevel == 0 && c.value.inputs == [start]
    {
      hide StateOk, LevelsOk, Hull, AllFiles, NumbersOf;
      StateLevels(levels, busy, running, level0Running, nextId);
      TwoLevels(levels, busy, start, InputFiles(0, []), a, b, 0, 0);
      InputsFacts(levels, [start]);
      var made := Form([start], 0);
      c := Some(made);
    }

    /** From the initial files to a compaction. */
    method PickFrom(start: InputFiles, outputLevel: nat, limit: nat, ghost a: nat, ghost b: nat)
      returns (c: Option<Compaction>)
      requires Valid() && Ready(start, outputLevel, a, b)
      modifies this`busy, this`running, this`level0Running, this`nextId
      ensures Valid()
      ensures c.Some? ==> running == old(running) + [c.value] && Sound(levels, c.value)
      ensures c.Some? ==> c.value.startLevel == start.level && c.value.outputLevel == outputLevel
      ensures c.Some? ==> Contains(c.value.inputs[0].files, start.files)
      // refused exactly for what runs already, and never within level 0
      ensures Gathered(levels, start, outputLevel).files != []
      ensures c.Some? ==>
                c.value.inputs == old(InputsFor(levels, busy, Gathered(levels, start, outputLevel), outputLevel, limit))
      ensures c.None? <==>
                && outputLevel != 0
                && old(Blocked(levels, busy, running, Gathered(levels, start, outputLevel), outputLevel, limit))
      ensures c.None? ==> running == old(running) && busy == old(busy)
    {
      hide StateOk, LevelsOk, Hull, Sound, Chosen, AnyBusy, Blocked, OverlappingL0, Overlapping, Covers, Expanded;
      StateLevels(levels, busy, running, level0Running, nextId);
      ChosenSorted(levels, start, a, b);
      if outputLevel == 0 {
        InputsWithin(levels, busy, start, limit);
        c := PickWithinLevel0(start, a, b);
      } else if start.level == 0 {
        var ok, more := GetOverlappingL0Files(start, outputLevel, a, b);
        if !ok {
          BlockedBelow(levels, busy, running, more, outputLevel, limit);
          return None;
        }
        c := Finish(more, outputLevel, limit, false, 0, 0);
      } else {
        c := Finish(start, outputLevel, limit, false, a, b);
      }
    }

    /** The file at a place of one of the lists of files to compact for another reason than size. */
    method TryListed(reason: Reason, place: Place, nonEmptyLevels: nat)
      returns (ok: bool, start: InputFiles, output: nat, ghost a: nat, ghost b: nat)
      requires Valid() && PlaceOk(levels, busy, reason, place)
      ensures ok ==> start.files != [] && Ready(start, output, a, b)
      ensures ok <==> Usable(levels, busy, level0Running, reason, place, nonEmptyLevels)
      ensures ok ==> start == InputFiles(place.level, CutOfFile(levels[place.level], place.level, place.index))
      ensures output == if reason == Bottommost then place.level else NextLevel(place.level)
    {
      hide StateOk, LevelsOk, AnyBusy;
      start, a, b := InputFiles(place.level, []), 0, 0;
      output := if reason == Bottommost then place.level else NextLevel(place.level);
      if reason == ExpiredTtl && place.level + 1 == nonEmptyLevels {
        return false, start, output, a, b;
      }
      if reason != Bottommost && place.level == 0 && level0Running != [] {
        return false, start, output, a, b;
      }
      ok, start, a, b := StartFrom(place.level, place.index);
    }

    ghost predicate NoneOf(d: Demand, reason: Reason, list: seq<Place>)
      reads this
    {
      NoneUsable(levels, busy, level0Running, reason, list, d.nonEmptyLevels)
    }

    ghost function CutAt(p: Place): InputFiles
      requires p.level < |levels| && p.index < |levels[p.level]|
      reads this`levels
    {
      InputFiles(p.level, CutOfFile(levels[p.level], p.level, p.index))
    }

    ghost predicate CanUse(d: Demand, reason: Reason, p: Place)
      reads this
    {
      Usable(levels, busy, level0Running, reason, p, d.nonEmptyLevels)
    }

    ghost predicate FirstUsable(d: Demand, reason: Reason, k: nat, start: InputFiles, output: nat)
      reads this
    {
      && k < |Listed(d, reason)| && NoneOf(d, reason, Listed(d, reason)[..k]) && CanUse(d, reason, Listed(d, reason)[k])
      && start == CutAt(Listed(d, reason)[k])
      && output == if reason == Bottommost then start.level else NextLevel(start.level)
    }

    method PickListed(d: Demand, reason: Reason)
      returns (start: InputFiles, output: nat, ghost a: nat, ghost b: nat, ghost k: nat)
      requires Valid() && DemandOk(levels, busy, d)
      // the first usable file of the list, if there is one
      ensures if start.files == [] then NoneOf(d, reason, Listed(d, reason))
              else Ready(start, output, a, b) && FirstUsable(d, reason, k, start, output)
    {
      hide StateOk, LevelsOk, AnyBusy, Chosen, Usable, CutOfFile;
      var list := Listed(d, reason);
      for i := 0 to |list|
        invariant NoneOf(d, reason, list[..i])
      {
        var ok;
        k := i;
        ok, start, output, a, b := TryListed(reason, list[i], d.nonEmptyLevels);
        if ok {
          return;
        }
      }
      assert list[..|list|] == list;
      start, output, a, b, k := InputFiles(0, []), 0, 0, 0, |list|;
    }

    /** Level 0 has too few files to merge among themselves, or its newest is taken, or merging them does too much. */
    ghost predicate NoneWithin(trigger: nat)
      requires levels != []
      reads this`levels, this`busy
    {
      || |levels[0]| < trigger + 2 || levels[0][0].number in busy
      || exists n: nat :: LongestSpan(levels[0], busy, n) && (n < MIN_FILES || PerFile(levels[0], n) >= MAX_BYTES)
    }

    /** The first `n` levels by score have nothing to compact. */
    ghost predicate PassedOver(d: Demand, n: nat)
      requires DemandOk(levels, busy, d) && n <= |d.scores|
      reads this
    {
      forall i :: 0 <= i < n && Searched(d, i) ==>
        NoneEligible(d, d.scores[i].level) && (d.scores[i].level == 0 ==> NoneWithin(d.trigger))
    }

    /** Nor has any list. */
    ghost predicate NothingToPick(d: Demand)
      requires DemandOk(levels, busy, d)
      reads this
    {
      PassedOver(d, |d.scores|) && forall reason: Reason :: NoneOf(d, reason, Listed(d, reason))
    }

    /** The lists are looked at in the order of their kinds, the marked files first at random. */
    ghost predicate EarlierUnusable(d: Demand, reason: Reason)
      requires d.marked != [] ==> d.random < |d.marked|
      reads this
    {
      && (d.marked != [] ==> !CanUse(d, MarkedForCompaction, d.marked[d.random]))
      && (reason != MarkedForCompaction ==> NoneOf(d, MarkedForCompaction, d.marked))
      && (reason == ExpiredTtl ==> NoneOf(d, Bottommost, d.bottommost))
    }

    ghost predicate FirstEligible(d: Demand, level: nat, k: nat)
      requires level < |d.order| == |d.next|
      reads this
    {
      && d.next[level] <= k < |d.order[level]|
      && Eligible(levels, busy, running, level, d.order[level][k], NextLevel(level))
      && forall i :: d.next[level] <= i < k ==>
           !Eligible(levels, busy, running, level, d.order[level][i], NextLevel(level))
    }

    /** Where the files come from, and that nothing that is looked at before them can be compacted. */
    ghost predicate Picked(d: Demand, start: InputFiles, output: nat, from: Origin)
      requires DemandOk(levels, busy, d)
      reads this
    {
      match from
      case BySize(i, k) =>
        && i < |d.scores| && Searched(d, i) && PassedOver(d, i) && FirstEligible(d, d.scores[i].level, k)
        && start == CutAt(Place(d.scores[i].level, d.order[d.scores[i].level][k]))
        && output == NextLevel(start.level)
      case WithinLevel0(i, n) =>
        && i < |d.scores| && Searched(d, i) && d.scores[i].level == 0 && PassedOver(d, i) && NoneEligible(d, 0)
        && MIN_FILES <= n && LongestSpan(levels[0], busy, n) && start == InputFiles(0, levels[0][..n]) && output == 0
      case AtRandom =>
        && PassedOver(d, |d.scores|) && d.marked != [] && CanUse(d, MarkedForCompaction, d.marked[d.random])
        && start == CutAt(d.marked[d.random]) && output == NextLevel(start.level)
      case InList(reason, k) =>
        PassedOver(d, |d.scores|) && EarlierUnusable(d, reason) && FirstUsable(d, reason, k, start, output)
      case Nowhere =>
        NothingToPick(d)
    }

    /** The levels by score, highest first; level 0 may be compacted within itself. */
    method PickBySize(d: Demand)
      returns (start: InputFiles, output: nat, ghost a: nat, ghost b: nat, ghost from: Origin)
      requires Valid() && DemandOk(levels, busy, d)
      ensures if start.files == [] then PassedOver(d, |d.scores|)
              else Ready(start, output, a, b) && (from.BySize? || from.WithinLevel0?) && Picked(d, start, output, from)
    {
      hide StateOk, LevelsOk, AnyBusy, Eligible, NoneUsable, Usable, CutOfFile, Chosen, LongestSpan, PerFile;
      var skippedToBase := false;
      start, output, a, b, from := InputFiles(0, []), 0, 0, 0, Nowhere;
      for i := 0 to |d.scores|
        invariant start.files == [] && skippedToBase == Level0Due(d, i) && PassedOver(d, i)
      {
        var level := d.scores[i].level;
        if d.scores[i].due && !(skippedToBase && level == baseLevel) {
          output := NextLevel(level);
          var next;
          start, next, a, b := PickFileToCompact(level, output, d.order[level], d.next[level]);
          if start.files != [] {
            from := BySize(i, next);
            return;
          }
          if level == 0 {
            skippedToBase := true;
            ghost var n;
            start, n := PickIntraL0Compaction(d.trigger);
            if start.files != [] {
              output, a, b, from := 0, 0, 0, WithinLevel0(i, n);
              return;
            }
          }
        }
      }
    }

    /** Then marked files, one at random first; bottommost and expired files. */
    method PickFromLists(d: Demand)
      returns (start: InputFiles, output: nat, ghost a: nat, ghost b: nat, ghost from: Origin)
      requires Valid() && DemandOk(levels, busy, d) && PassedOver(d, |d.scores|)
      ensures start.files != [] ==> Ready(start, output, a, b)
      ensures Picked(d, start, output, from) && (start.files == [] <==> from == Nowhere)
    {
      hide StateOk, LevelsOk, AnyBusy, CutOfFile, Ready, PassedOver, NoneOf, FirstUsable, Usable;
      ghost var k;
      if d.marked != [] {
        var ok;
        ok, start, output, a, b := TryListed(MarkedForCompaction, d.marked[d.random], d.nonEmptyLevels);
        if ok {
          from := AtRandom;
          return;
        }
      }
      start, output, a, b, k := PickListed(d, MarkedForCompaction);
      from := InList(MarkedForCompaction, k);
      if start.files == [] {
        start, output, a, b, k := PickListed(d, Bottommost);
        from := InList(Bottommost, k);
      }
      if start.files == [] {
        start, output, a, b, k := PickListed(d, ExpiredTtl);
        from := InList(ExpiredTtl, k);
      }
      if start.files == [] {
        from := Nowhere;
      }
    }

    method SetupInitialFiles(d: Demand)
      returns (start: InputFiles, output: nat, ghost a: nat, ghost b: nat, ghost from: Origin)
      requires Valid() && DemandOk(levels, busy, d)
      ensures start.files != [] ==> Ready(start, output, a, b)
      // the first that can be compacted is picked, and nothing only if nothing can be
      ensures Picked(d, start, output, from) && (start.files == [] <==> from == Nowhere)
    {
      hide StateOk, LevelsOk, DemandOk, Ready, PassedOver, Picked;
      start, output, a, b, from := PickBySize(d);
      if start.files == [] {
        start, output, a, b, from := PickFromLists(d);
      }
    }

    method PickCompaction(d: Demand)
      returns (c: Option<Compaction>, ghost start: InputFiles, ghost output: nat, ghost from: Origin)
      requires Valid() && DemandOk(levels, busy, d)
      modifies this`busy, this`running, this`level0Running, this`nextId
      ensures Valid()
      // what is due first is compacted, with what it needs
      ensures old(Picked(d, start, output, from))
      ensures c.Some? ==> running == old(running) + [c.value] && Sound(levels, c.value)
      ensures c.Some? ==> from != Nowhere && c.value.startLevel == start.level && c.value.outputLevel == output
      ensures c.Some? ==> Contains(c.value.inputs[0].files, start.files)
      // nothing is done exactly if nothing can be picked, or what is picked needs something that runs already
      ensures from != Nowhere ==> start.files != [] && start.level <= output < |levels|
      ensures from != Nowhere ==> Gathered(levels, start, output).files != []
      ensures c.Some? ==>
                c.value.inputs == old(InputsFor(levels, busy, Gathered(levels, start, output), output, d.limit))
      ensures c.None? <==>
                || from == Nowhere
                || (output != 0
                    && old(Blocked(levels, busy, running, Gathered(levels, start, output), output, d.limit)))
      ensures c.None? ==> running == old(running) && busy == old(busy)
    {
      hide StateOk, LevelsOk, Sound, Chosen, DemandOk, Picked, Blocked, Gathered, InputsFor;
      var first, level;
      ghost var a, b;
      first, level, a, b, from := SetupInitialFiles(d);
      start, output := first, level;
      if first.files == [] {
        return None, start, output, from;
      }
      c := PickFrom(first, level, d.limit, a, b);
    }

    // ----- CompactFiles

    /** Completes the named files and compacts them. The code asserts, rather than tests, that the whole range
        is clear of what runs; with assertions compiled out it goes on. */
    method CompactFiles(named: set<nat>, output: int, maxOutputLevel: int, asserts: bool) returns (result: FilesResult)
      requires Valid()
      modifies this`busy, this`running, this`level0Running, this`nextId
      ensures result.Refused? <==> !Accepted(levels, old(busy), old(running), maxOutputLevel, named, output)
      // the assertion fails exactly if something that runs meets the range of the completed files
      ensures result.AssertionFails? <==>
                && asserts && Accepted(levels, old(busy), old(running), maxOutputLevel, named, output)
                && Overlaps(levels, old(running), named, output)
      ensures result.AssertionFails? ==> 0 <= output < |levels| && Deeper(levels, named, output)
      // the inputs are the completed files: the named ones and, up to the output level, what has to go along
      ensures result.Formed? ==> running == old(running) + [result.c] && result.c.outputLevel == output
      ensures result.Formed? ==> 0 <= output < |levels| && named <= NumbersOf(result.c.inputs)
      ensures result.Formed? ==> NumbersOf(result.c.inputs) == Full(levels, named, output).named
      ensures result.Formed? ==> ClosedUpTo(levels, NumbersOf(result.c.inputs), output)
      ensures !result.Formed? ==> running == old(running) && busy == old(busy)
      // without assertions, an overlap on an output level other than 0 is the one thing that breaks the state
      ensures Valid() <==> !(result.Formed? && output > 0 && Overlaps(levels, old(running), named, output))
      ensures asserts ==> Valid()
    {
      hide StateOk, LevelsOk, AnyBusy, LevelDone, Added, Tight, Exists, AllFiles, Hull, NumbersOf, InputsOk, ClosedUpTo,
           Passes, Conflicts, JointRange, Completed;
      StateLevels(levels, busy, running, level0Running, nextId);
      var status, full;
      ghost var r;
      status, full, r := SanitizeCompactionInputFiles(levels, busy, running, maxOutputLevel, named, output);
      if status != Ok {
        return Refused(status);
      }
      var inputs := GetCompactionInputsFromFileNumbers(levels, full);
      AddedMore(levels, named, full, r, 0, output);
      NamedInputs(levels, full, inputs);
      AllFree(levels, busy, full, inputs);
      InputsFacts(levels, inputs);
      JointHull(levels, full, inputs);
      for i := 0 to |inputs|
        invariant Valid() && unchanged(this)
      {
        NoneMarked(inputs, busy, i);
        var any := AreFilesInCompaction(inputs[i].files, busy);
        assert !any;
      }
      var overlap := FilesRangeOverlapWithCompaction(running, inputs, output);
      if overlap && asserts {
        if !Deeper(levels, full, output) {
          HullInside(levels, busy, full, r, inputs, output);
          NoConflictInside(running, r, Hull(AllFiles(inputs)), output);
        }
        DeeperNamed(levels, named, full, r, output);
        return AssertionFails;
      }
      DoneIsClosed(levels, busy, full, r, output);
      var c := Register(inputs, output);
      return Formed(c);
    }
  }
}
