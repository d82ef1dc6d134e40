/** When the key range checked for a request to compact files is enough. */
module RequestSafety {
  import opened CompactionFiles
  import opened CleanCuts
  import opened SanitizeInputs
  import opened RunningCompactions
  import opened FileRequests

  ghost predicate Outside(levels: seq<seq<File>>, named: set<nat>, output: nat, f: File)
    requires output < |levels|
  {
    f.number !in Full(levels, named, output).named && exists l: nat :: l < |levels| && f in levels[l]
  }

  /** No two files outside the completed set (or one, twice) have a joint range that meets the range of the set,
      but not the part of it that is checked. */
  ghost predicate Safe(levels: seq<seq<File>>, named: set<nat>, output: nat)
    requires output < |levels|
  {
    forall f, g :: Outside(levels, named, output, f) && Outside(levels, named, output, g) ==>
      Meets(JointRange(levels, Full(levels, named, output).named), Join(Span(f), Span(g))) ==>
      Meets(Full(levels, named, output).range, Join(Span(f), Span(g)))
  }

  lemma InputOutside(levels: seq<seq<File>>, busy: set<nat>, running: seq<Compaction>, level0: seq<Compaction>,
                     nextId: nat, i: nat, f: File, named: set<nat>, output: nat)
    requires StateOk(levels, busy, running, level0, nextId) && Unfinished(levels, running)
    requires i < |running| && f in AllFiles(running[i].inputs)
    requires output < |levels| && Full(levels, named, output).named !! busy
    ensures Outside(levels, named, output, f)
  {
    hide LevelsOk, Completed, AllFiles, Hull;
    assert f.number in NumbersOf(running[i].inputs);
    MarkedHas(running, f.number);
    AllFilesHas(running[i].inputs, f);
    var j :| 0 <= j < |running[i].inputs| && f in running[i].inputs[j].files;
    assert f in levels[running[i].inputs[j].level];
  }

  lemma SafeHolds(levels: seq<seq<File>>, busy: set<nat>, running: seq<Compaction>, level0: seq<Compaction>,
                  nextId: nat, maxOutputLevel: int, named: set<nat>, output: nat)
    requires StateOk(levels, busy, running, level0, nextId) && Unfinished(levels, running)
    requires output < |levels| && Safe(levels, named, output)
    requires Accepted(levels, busy, running, maxOutputLevel, named, output)
    ensures !Overlaps(levels, running, named, output)
  {
    hide LevelsOk, JointRange, Completed, Exists, AllFiles, Hull, Free;
    var full := Full(levels, named, output);
    FullFree(levels, busy, running, named, output);
    forall i | 0 <= i < |running| && running[i].outputLevel == output
      ensures !Meets(JointRange(levels, full.named), running[i].range)
    {
      var files := AllFiles(running[i].inputs);
      var a, b := HullOf(files);
      HullCovers(files, a);
      HullCovers(files, b);
      assert running[i].range == Join(Span(files[a]), Span(files[b]));
      InputOutside(levels, busy, running, level0, nextId, i, files[a], named, output);
      InputOutside(levels, busy, running, level0, nextId, i, files[b], named, output);
    }
  }

  /** Two files that are there, taken as inputs by level and in key order. */
  function Pair(l: nat, f: File, m: nat, g: File): seq<InputFiles>
  {
    if l != m then [InputFiles(l, [f]), InputFiles(m, [g])]
    else if f == g then [InputFiles(l, [f])]
    else [InputFiles(l, [f, g])]
  }

  lemma PairFiles(l: nat, f: File, m: nat, g: File)
    ensures AllFiles(Pair(l, f, m, g)) == if l == m && f == g then [f] else [f, g]
  {
    var inputs, one := Pair(l, f, m, g), [InputFiles(l, [f])];
    assert one[..0] == [] && AllFiles(one) == AllFiles([]) + [f] == [f];
    if l != m {
      assert inputs[..1] == one;
      assert AllFiles(inputs) == [f] + [g];
    } else if f != g {
      assert inputs[..0] == [] && AllFiles(inputs) == AllFiles([]) + [f, g];
    }
  }

  lemma PairHull(f: File, g: File)
    ensures Hull([f, g]) == Join(Span(f), Span(g)) && Hull([f]) == Span(f)
    ensures NumbersIn([f, g]) == {f.number, g.number} && NumbersIn([f]) == {f.number}
  {
    assert [f, g][..1] == [f];
    assert [f, g][1] == g && [f, g][0] == f;
  }

  lemma PairOk(levels: seq<seq<File>>, l: nat, i: nat, m: nat, j: nat)
    requires LevelsOk(levels) && m < |levels| && l <= m && i < |levels[l]| && j < |levels[m]| && (l == m ==> i <= j)
    ensures var inputs := Pair(l, levels[l][i], m, levels[m][j]);
            && InputsOk(levels, inputs) && AllFiles(inputs) != []
            && Hull(AllFiles(inputs)) == Join(Span(levels[l][i]), Span(levels[m][j]))
            && NumbersOf(inputs) == {levels[l][i].number, levels[m][j].number}
  {
    hide AllFiles, Hull, NumbersIn;
    PairFiles(l, levels[l][i], m, levels[m][j]);
    PairHull(levels[l][i], levels[m][j]);
  }

  /** A compaction of two such files can run when the request is accepted, and is in its way. */
  lemma PairClashes(levels: seq<seq<File>>, named: set<nat>, output: nat, maxOutputLevel: int, f: File, g: File)
    returns (c: Compaction)
    requires LevelsOk(levels) && ValidRequest(levels, maxOutputLevel, named, output)
    requires forall n :: n in named ==> Exists(levels, n)
    requires Outside(levels, named, output, f) && Outside(levels, named, output, g)
    requires Meets(JointRange(levels, Full(levels, named, output).named), Join(Span(f), Span(g)))
    requires !Meets(Full(levels, named, output).range, Join(Span(f), Span(g)))
    ensures StateOk(levels, NumbersOf(c.inputs), [c], if c.startLevel == 0 then [c] else [], 1)
    ensures Unfinished(levels, [c])
    ensures Accepted(levels, NumbersOf(c.inputs), [c], maxOutputLevel, named, output)
    ensures Overlaps(levels, [c], named, output)
  {
    hide LevelsOk, JointRange, Completed, Exists, AllFiles, Hull, InputsOk, NumbersOf, Registered, StateOk;
    var l: nat :| l < |levels| && f in levels[l];
    var m: nat :| m < |levels| && g in levels[m];
    var i :| 0 <= i < |levels[l]| && levels[l][i] == f;
    var j :| 0 <= j < |levels[m]| && levels[m][j] == g;
    var inputs;
    if l < m || (l == m && i <= j) {
      PairOk(levels, l, i, m, j);
      inputs := Pair(l, f, m, g);
    } else {
      PairOk(levels, m, j, l, i);
      inputs := Pair(m, g, l, f);
    }
    c := Compaction(0, inputs, inputs[0].level, output, Join(Span(f), Span(g)));
    JustPicked(levels, c);
    Alone(levels, c);
    assert [c][0] == c;
    CompletedGrows(levels, named, 0, output + 1, output);
    FirstCompleted(levels, named, output);
  }

  /** In every state of the picker that accepts the request, with no running compaction finished, the assertion
      holds: this is so exactly if the request is safe. */
  lemma RangeCheckExact(levels: seq<seq<File>>, named: set<nat>, output: nat, maxOutputLevel: int)
    requires LevelsOk(levels) && ValidRequest(levels, maxOutputLevel, named, output)
    requires forall n :: n in named ==> Exists(levels, n)
    ensures (forall busy: set<nat>, running: seq<Compaction>, level0: seq<Compaction>, nextId: nat ::
               StateOk(levels, busy, running, level0, nextId) && Unfinished(levels, running) ==>
               Accepted(levels, busy, running, maxOutputLevel, named, output) ==>
               !Overlaps(levels, running, named, output))
            <==> Safe(levels, named, output)
  {
    hide LevelsOk, StateOk, Unfinished, Accepted, JointRange, Completed, Exists;
    if Safe(levels, named, output) {
      forall busy: set<nat>, running: seq<Compaction>, level0: seq<Compaction>, nextId: nat |
        StateOk(levels, busy, running, level0, nextId) && Unfinished(levels, running) &&
        Accepted(levels, busy, running, maxOutputLevel, named, output)
        ensures !Overlaps(levels, running, named, output)
      {
        SafeHolds(levels, busy, running, level0, nextId, maxOutputLevel, named, output);
      }
    } else {
      var f, g :| Outside(levels, named, output, f) && Outside(levels, named, output, g)
                  && Meets(JointRange(levels, Full(levels, named, output).named), Join(Span(f), Span(g)))
                  && !Meets(Full(levels, named, output).range, Join(Span(f), Span(g)));
      var c := PairClashes(levels, named, output, maxOutputLevel, f, g);
      assert StateOk(levels, NumbersOf(c.inputs), [c], if c.startLevel == 0 then [c] else [], 1);
    }
  }

  lemma AloneOk(levels: seq<seq<File>>, l: nat, i: nat, output: nat)
    requires LevelsOk(levels) && l < |levels| && i < |levels[l]|
    ensures var inputs := [InputFiles(l, [levels[l][i]])];
            && CompactionOk(levels, Compaction(0, inputs, l, output, Span(levels[l][i])))
            && NumbersOf(inputs) == {levels[l][i].number}
  {
    hide LevelsOk, AllFiles, Hull, InputsOk, NumbersOf;
    PairOk(levels, l, i, l, i);
  }

  // ----- compactions that have finished

  lemma JointOrdered(levels: seq<seq<File>>, s: set<nat>)
    requires LevelsOk(levels)
    ensures JointRange(levels, s).lo <= JointRange(levels, s).hi
  {
    hide Hull, FilesOf;
    var files := FilesOf(levels, s);
    if files != [] {
      FilesOfHas(levels, s, files[0]);
      var l :| 0 <= l < |levels| && files[0] in levels[l];
      var i :| 0 <= i < |levels[l]| && levels[l][i] == files[0];
      HullCovers(files, 0);
    }
  }

  /** A number that no file of the level has, from `n` on. */
  function UnusedIn(files: seq<File>, n: nat): (r: nat)
    ensures n <= r && forall f :: f in files ==> f.number < r
  {
    if files == [] then n
    else
      var r, f := UnusedIn(files[..|files| - 1], n), files[|files| - 1];
      assert files == files[..|files| - 1] + [f];
      if r <= f.number then f.number + 1 else r
  }

  function Unused(levels: seq<seq<File>>): (r: nat)
    ensures forall l, f :: 0 <= l < |levels| && f in levels[l] ==> f.number < r
  {
    if levels == [] then 0 else UnusedIn(levels[|levels| - 1], Unused(levels[..|levels| - 1]))
  }

  /** A compaction of one file with one key, which has gone since. */
  function Gone(levels: seq<seq<File>>, output: nat, key: nat): Compaction
  {
    Compaction(0, [InputFiles(output, [File(Unused(levels), key, key, 0)])], output, output, Range(key, key))
  }

  /** The levels it was picked from. */
  function Before(f: File, output: nat): seq<seq<File>>
  {
    seq(output + 1, l => if l == output then [f] else [])
  }

  lemma BeforeOk(f: File, output: nat)
    requires f.smallest <= f.largest
    ensures LevelsOk(Before(f, output)) && |Before(f, output)| == output + 1 && Before(f, output)[output] == [f]
  {
  }

  lemma GonePicked(f: File, output: nat)
    requires f.smallest <= f.largest
    ensures CompactionOk(Before(f, output), Compaction(0, [InputFiles(output, [f])], output, output, Span(f)))
    ensures NumbersOf([InputFiles(output, [f])]) == {f.number}
  {
    hide LevelsOk, Before, CompactionOk, NumbersOf;
    BeforeOk(f, output);
    AloneOk(Before(f, output), output, 0, output);
  }

  lemma GoneRegistered(levels: seq<seq<File>>, output: nat, key: nat)
    ensures Registered(levels, Gone(levels, output, key))
    ensures NumbersOf(Gone(levels, output, key).inputs) == {Unused(levels)}
  {
    hide LevelsOk, Unused, CompactionOk, Before, NumbersOf;
    var f := File(Unused(levels), key, key, 0);
    BeforeOk(f, output);
    GonePicked(f, output);
  }

  /** Such a compaction is in the way of a request that it lets through. */
  lemma GoneClashes(levels: seq<seq<File>>, named: set<nat>, output: nat, maxOutputLevel: int, key: nat)
    requires LevelsOk(levels) && ValidRequest(levels, maxOutputLevel, named, output)
    requires forall n :: n in named ==> Exists(levels, n)
    requires Meets(JointRange(levels, Full(levels, named, output).named), Range(key, key))
    requires !Meets(Full(levels, named, output).range, Range(key, key))
    ensures var c := Gone(levels, output, key);
            && StateOk(levels, NumbersOf(c.inputs), [c], if c.startLevel == 0 then [c] else [], 1)
            && Accepted(levels, NumbersOf(c.inputs), [c], maxOutputLevel, named, output)
            && Overlaps(levels, [c], named, output)
  {
    hide LevelsOk, JointRange, Completed, NumbersOf, Registered, StateOk, Unused;
    var c := Gone(levels, output, key);
    GoneRegistered(levels, output, key);
    Alone(levels, c);
    assert [c][0] == c;
    forall n | n in named ensures n !in NumbersOf(c.inputs) {
      var l: nat, i: nat :| At(levels, l, i, n);
      assert levels[l][i] in levels[l];
    }
  }

  /** In every state, also with finished compactions that are still registered, the assertion holds: this is so
      exactly if all keys of the request are checked. */
  lemma RangeCheckAnyState(levels: seq<seq<File>>, named: set<nat>, output: nat, maxOutputLevel: int)
    requires LevelsOk(levels) && ValidRequest(levels, maxOutputLevel, named, output)
    requires forall n :: n in named ==> Exists(levels, n)
    ensures (forall busy: set<nat>, running: seq<Compaction>, level0: seq<Compaction>, nextId: nat ::
               StateOk(levels, busy, running, level0, nextId) ==>
               Accepted(levels, busy, running, maxOutputLevel, named, output) ==>
               !Overlaps(levels, running, named, output))
            <==> Within(JointRange(levels, Full(levels, named, output).named), Full(levels, named, output).range)
  {
    hide LevelsOk, StateOk, JointRange, Completed, Exists, Free, Gone;
    var joint, r := JointRange(levels, Full(levels, named, output).named), Full(levels, named, output).range;
    if Within(joint, r) {
      forall busy: set<nat>, running: seq<Compaction>, level0: seq<Compaction>, nextId: nat |
        StateOk(levels, busy, running, level0, nextId) && Accepted(levels, busy, running, maxOutputLevel, named, output)
        ensures !Overlaps(levels, running, named, output)
      {
        NoConflictInside(running, r, joint, output);
      }
    } else {
      JointOrdered(levels, Full(levels, named, output).named);
      var key := if joint.lo < r.lo then joint.lo else joint.hi;
      var c := Gone(levels, output, key);
      GoneClashes(levels, named, output, maxOutputLevel, key);
      assert StateOk(levels, NumbersOf(c.inputs), [c], if c.startLevel == 0 then [c] else [], 1);
    }
  }

  // ----- a request that the checks let through

  const OUTSIDE := File(7, 10, 20, 1)
  const RUNNING := File(1, 12, 15, 1)
  const LEVELS: seq<seq<File>> := [[], [RUNNING], [], [OUTSIDE]]
  const REWRITE := Compaction(0, [InputFiles(1, [RUNNING])], 1, 1, Range(12, 15))

  lemma ExampleLevels()
    ensures LevelsOk(LEVELS)
  {
  }

  lemma ExampleState()
    ensures StateOk(LEVELS, {1}, [REWRITE], [], 1) && Unfinished(LEVELS, [REWRITE])
  {
    hide LevelsOk, CompactionOk, NumbersOf, Registered, StateOk;
    ExampleLevels();
    assert LEVELS[1] == [RUNNING] && RUNNING == LEVELS[1][0];
    AloneOk(LEVELS, 1, 0, 1);
    JustPicked(LEVELS, REWRITE);
    Alone(LEVELS, REWRITE);
  }

  /** Any compaction with that file of level 3 runs into the one that is running. */
  lemma ExampleMeets(inputs: seq<InputFiles>)
    requires OUTSIDE in AllFiles(inputs)
    ensures AllFiles(inputs) != [] && Conflicts([REWRITE], Hull(AllFiles(inputs)), 1)
  {
    hide AllFiles, Hull;
    var files := AllFiles(inputs);
    var k :| 0 <= k < |files| && files[k] == OUTSIDE;
    HullCovers(files, k);
    assert [REWRITE][0].outputLevel == 1 && Meets(Hull(files), [REWRITE][0].range);
  }

  lemma ExampleRequest()
    ensures Full(LEVELS, {7}, 1) == Completion({7}, false, Range(0, 0))
    ensures Exists(LEVELS, 7) && !Conflicts([REWRITE], Range(0, 0), 1)
    ensures OUTSIDE in LEVELS[3]
  {
    NoneCompleted(LEVELS, {7}, 2, 1);
    assert At(LEVELS, 3, 0, 7);
    assert LEVELS[3][0] == OUTSIDE;
  }

  /** Level 1 is being rewritten; a file of level 3 across the same keys is accepted for output to level 1. */
  method DeeperFileEscapes() returns (status: Status, overlap: bool)
    ensures StateOk(LEVELS, {1}, [REWRITE], [], 1) && Unfinished(LEVELS, [REWRITE])
    ensures status == Ok && overlap
  {
    hide StateOk, LevelsOk, Completed, Exists, Conflicts, AllFiles, Hull, Added, LevelDone, Tight, Matching, InputsOk,
         NumbersOf;
    ExampleLevels();
    ExampleState();
    ExampleRequest();
    var named: set<nat> := {7};
    var full;
    ghost var r;
    status, full, r := SanitizeCompactionInputFiles(LEVELS, {1}, [REWRITE], 3, named, 1);
    var inputs := GetCompactionInputsFromFileNumbers(LEVELS, full);
    NamedInputs(LEVELS, full, inputs);
    assert OUTSIDE in AllFiles(inputs);
    InputsFacts(LEVELS, inputs);
    ExampleMeets(inputs);
    overlap := FilesRangeOverlapWithCompaction([REWRITE], inputs, 1);
  }

  const LEFT := File(1, 5, 6, 1)
  const RIGHT := File(2, 25, 26, 1)
  const APART: seq<seq<File>> := [[], [LEFT, RIGHT], [], [OUTSIDE]]

  lemma ApartLevels()
    ensures LevelsOk(APART)
  {
  }

  lemma ApartRange()
    ensures JointRange(APART, {7}) == Range(10, 20)
  {
    hide Hull, FilesOf, Matching;
    assert OUTSIDE in APART[3];
    forall f ensures f in FilesOf(APART, {7}) <==> f == OUTSIDE {
      FilesOfHas(APART, {7}, f);
    }
    var files := FilesOf(APART, {7});
    assert OUTSIDE in files;
    var a, b := HullOf(files);
    assert files[a] in files && files[b] in files;
  }

  /** Looking at one other file at a time is not enough: here none meets the range of the request, but the joint
      range of two, which is what a compaction of both holds, does. */
  lemma OneFileNotEnough()
    ensures LevelsOk(APART) && !Safe(APART, {7}, 1)
    ensures forall f :: Outside(APART, {7}, 1, f) ==>
              !Meets(JointRange(APART, Full(APART, {7}, 1).named), Span(f))
  {
    hide JointRange, Completed, LevelsOk;
    ApartLevels();
    NoneCompleted(APART, {7}, 2, 1);
    ApartRange();
    assert LEFT in APART[1] && RIGHT in APART[1];
    assert Outside(APART, {7}, 1, LEFT) && Outside(APART, {7}, 1, RIGHT);
    assert Join(Span(LEFT), Span(RIGHT)) == Range(5, 26);
  }
}
