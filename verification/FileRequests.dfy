/** The files named in a request to compact them, once completed. */
module FileRequests {
  import opened CompactionFiles
  import opened CleanCuts
  import opened SanitizeInputs
  import opened RunningCompactions

  /** The user-key range of the files of all levels that are in the set. */
  function FilesOf(levels: seq<seq<File>>, s: set<nat>): seq<File>
  {
    if levels == [] then [] else FilesOf(levels[..|levels| - 1], s) + Matching(levels[|levels| - 1], s)
  }

  function JointRange(levels: seq<seq<File>>, s: set<nat>): Range
  {
    if FilesOf(levels, s) == [] then Range(0, 0) else Hull(FilesOf(levels, s))
  }

  /** Something that runs, with that output level, meets the range of the completed request. */
  ghost predicate Overlaps(levels: seq<seq<File>>, running: seq<Compaction>, named: set<nat>, output: int)
  {
    0 <= output < |levels| && Conflicts(running, JointRange(levels, Full(levels, named, output).named), output)
  }

  lemma {:induction false} FilesOfHas(levels: seq<seq<File>>, s: set<nat>, f: File)
    ensures f in FilesOf(levels, s) <==> f.number in s && exists l :: 0 <= l < |levels| && f in levels[l]
  {
    if levels != [] {
      var n := |levels| - 1;
      FilesOfHas(levels[..n], s, f);
      if f in FilesOf(levels[..n], s) {
        var l :| 0 <= l < n && f in levels[..n][l];
        assert f in levels[l];
      }
      if l :| 0 <= l < n && f in levels[l] {
        assert f in levels[..n][l];
      }
    }
  }

  /** The inputs are the named files. */
  ghost predicate InputsOf(levels: seq<seq<File>>, named: set<nat>, inputs: seq<InputFiles>)
  {
    forall f :: f in AllFiles(inputs) <==> f.number in named && exists l :: 0 <= l < |levels| && f in levels[l]
  }

  lemma JointHull(levels: seq<seq<File>>, s: set<nat>, inputs: seq<InputFiles>)
    requires InputsOf(levels, s, inputs) && AllFiles(inputs) != []
    ensures JointRange(levels, s) == Hull(AllFiles(inputs))
  {
    hide AllFiles, Hull, FilesOf;
    var a, b := AllFiles(inputs), FilesOf(levels, s);
    forall f ensures f in a <==> f in b {
      FilesOfHas(levels, s, f);
    }
    assert a[0] in b;
    HullGrows(a, b);
    HullGrows(b, a);
  }

  lemma NoneMarked(inputs: seq<InputFiles>, busy: set<nat>, i: nat)
    requires NumbersOf(inputs) !! busy && i < |inputs|
    ensures !AnyBusy(inputs[i].files, busy)
  {
    hide AllFiles;
    forall j | 0 <= j < |inputs[i].files| ensures inputs[i].files[j].number !in busy {
      AllFilesHas(inputs, inputs[i].files[j]);
      assert inputs[i].files[j] in AllFiles(inputs);
    }
  }

  /** No file up to the output level is left behind that meets an included one above or beside it, and none of
      level 0 that is older than an included one. */
  ghost predicate ClosedUpTo(levels: seq<seq<File>>, named: set<nat>, output: nat)
    requires output < |levels|
  {
    && (forall k :: 0 <= k <= output ==> Closed(levels, named, k, output))
    && (output > 0 ==> OlderIncluded(levels[0], named))
  }

  lemma DoneIsClosed(levels: seq<seq<File>>, busy: set<nat>, named: set<nat>, r: Range, output: nat)
    requires output < |levels| && forall k :: 0 <= k <= output ==> LevelDone(levels, named, busy, r, k, output)
    ensures ClosedUpTo(levels, named, output)
  {
    hide Closed, OlderIncluded;
    assert LevelDone(levels, named, busy, r, 0, output);
    forall k | 0 <= k <= output ensures Closed(levels, named, k, output) {
      assert LevelDone(levels, named, busy, r, k, output);
    }
  }

  /** A file below the output level is named. */
  predicate Deeper(levels: seq<seq<File>>, named: set<nat>, output: nat)
    requires output < |levels|
  {
    exists l, i :: output < l < |levels| && 0 <= i < |levels[l]| && levels[l][i].number in named
  }

  /** Every named file below the output level lies in the range that was checked. */
  predicate DeeperInside(levels: seq<seq<File>>, named: set<nat>, r: Range, output: nat)
    requires output < |levels|
  {
    forall l, i :: output < l < |levels| && 0 <= i < |levels[l]| && levels[l][i].number in named ==>
      Within(Span(levels[l][i]), r)
  }

  lemma NamedNumbers(levels: seq<seq<File>>, named: set<nat>, inputs: seq<InputFiles>)
    requires InputsOf(levels, named, inputs) && forall n :: n in named ==> Exists(levels, n)
    ensures named == NumbersOf(inputs)
  {
    hide AllFiles;
    forall n | n in named ensures n in NumbersOf(inputs) {
      var k: nat, i: nat :| At(levels, k, i, n);
      assert levels[k][i] in levels[k] && levels[k][i] in AllFiles(inputs);
    }
  }

  lemma NamedFile(levels: seq<seq<File>>, named: set<nat>, inputs: seq<InputFiles>, f: File)
    requires forall i :: 0 <= i < |inputs| ==>
               inputs[i].level < |levels| && inputs[i].files == Matching(levels[inputs[i].level], named)
    requires forall l :: 0 <= l < |levels| && Matching(levels[l], named) != [] ==> exists i :: InputAt(inputs, i, l)
    ensures f in AllFiles(inputs) <==> f.number in named && exists l :: 0 <= l < |levels| && f in levels[l]
  {
    hide AllFiles;
    AllFilesHas(inputs, f);
    if l :| 0 <= l < |levels| && f in levels[l] && f.number in named {
      assert f in Matching(levels[l], named);
      var i :| InputAt(inputs, i, l);
      assert f in inputs[i].files;
    }
  }

  lemma NamedInputs(levels: seq<seq<File>>, named: set<nat>, inputs: seq<InputFiles>)
    requires LevelsOk(levels) && named != {} && forall n :: n in named ==> Exists(levels, n)
    requires forall i :: 0 <= i < |inputs| ==>
               inputs[i].level < |levels| && inputs[i].files == Matching(levels[inputs[i].level], named)
    requires forall i, j :: 0 <= i < j < |inputs| ==> inputs[i].level < inputs[j].level
    requires inputs != [] ==> inputs[0].files != []
    requires forall l :: 0 <= l < |levels| && Matching(levels[l], named) != [] ==> exists i :: InputAt(inputs, i, l)
    ensures InputsOk(levels, inputs) && InputsOf(levels, named, inputs) && named == NumbersOf(inputs)
  {
    hide Matching, AllFiles, LevelsOk;
    forall f ensures f in AllFiles(inputs) <==> f.number in named && exists l :: 0 <= l < |levels| && f in levels[l] {
      NamedFile(levels, named, inputs, f);
    }
    NamedNumbers(levels, named, inputs);
    var n :| n in named;
    assert n in NumbersOf(inputs);
    SomeFiles(inputs);
    forall i | 0 <= i < |inputs|
      ensures NoTwice(inputs[i].files) && (inputs[i].level > 0 ==> SortedLevel(inputs[i].files))
    {
      var l := inputs[i].level;
      assert levels[l][0..|levels[l]|] == levels[l];
      LevelNoTwice(levels, l, 0, |levels[l]|);
      MatchingNoTwice(levels[l], named);
      if l > 0 {
        LevelSorted(levels, l);
        MatchingSorted(levels[l], named);
      }
    }
  }

  lemma AllFree(levels: seq<seq<File>>, busy: set<nat>, named: set<nat>, inputs: seq<InputFiles>)
    requires InputsOf(levels, named, inputs) && forall n :: n in named ==> n !in busy
    ensures NumbersOf(inputs) !! busy
  {
  }

  /** Files up to the output level are in the checked range; so is everything if no deeper file sticks out. */
  lemma HullInside(levels: seq<seq<File>>, busy: set<nat>, named: set<nat>, r: Range, inputs: seq<InputFiles>,
                   output: nat)
    requires output < |levels| && InputsOf(levels, named, inputs) && AllFiles(inputs) != []
    requires forall k :: 0 <= k <= output ==> LevelDone(levels, named, busy, r, k, output)
    ensures Within(Hull(AllFiles(inputs)), r) <==> DeeperInside(levels, named, r, output)
    ensures !Deeper(levels, named, output) ==> Within(Hull(AllFiles(inputs)), r)
  {
    hide AllFiles, Hull;
    var files := AllFiles(inputs);
    if DeeperInside(levels, named, r, output) {
      forall i | 0 <= i < |files| ensures Within(Span(files[i]), r) {
        assert files[i] in files;
        var l :| 0 <= l < |levels| && files[i] in levels[l];
        var k :| 0 <= k < |levels[l]| && levels[l][k] == files[i];
        if l <= output {
          assert LevelDone(levels, named, busy, r, l, output) && Inc(levels, named, l, k);
        }
      }
      HullLeast(files, r);
    }
    if Within(Hull(files), r) {
      forall l, i | output < l < |levels| && 0 <= i < |levels[l]| && levels[l][i].number in named
        ensures Within(Span(levels[l][i]), r)
      {
        var f := levels[l][i];
        assert f in levels[l] && f in files;
        var k :| 0 <= k < |files| && files[k] == f;
        HullCovers(files, k);
      }
    }
  }

  lemma NoConflictInside(running: seq<Compaction>, r: Range, hull: Range, output: nat)
    requires !Conflicts(running, r, output) && Within(hull, r)
    ensures !Conflicts(running, hull, output)
  {
  }

  lemma DeeperNamed(levels: seq<seq<File>>, named: set<nat>, full: set<nat>, r: Range, output: nat)
    requires LevelsOk(levels) && output < |levels| && Added(levels, named, full, r, 0, output)
    ensures Deeper(levels, full, output) ==> Deeper(levels, named, output)
  {
    if Deeper(levels, full, output) {
      var l, i :| output < l < |levels| && 0 <= i < |levels[l]| && levels[l][i].number in full;
      assert forall m: nat, j: nat :: At(levels, m, j, levels[l][i].number) ==> m == l;
      assert levels[l][i].number in named;
    }
  }
}
