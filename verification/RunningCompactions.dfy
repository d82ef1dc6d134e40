/** The compactions that run at one time, in level style. */
module RunningCompactions {
  import opened CompactionFiles
  import opened CleanCuts

  // ----- what a compaction consists of

  /** Inputs by level, of files that are there; the first level has some. */
  predicate InputsOk(levels: seq<seq<File>>, inputs: seq<InputFiles>)
  {
    && inputs != [] && inputs[0].files != [] && Ordered(inputs)
    && (forall i :: 0 <= i < |inputs| ==>
          inputs[i].level < |levels| && NoTwice(inputs[i].files) && Contains(levels[inputs[i].level], inputs[i].files))
    && (forall i, j :: 0 <= i < j < |inputs| ==> inputs[i].level < inputs[j].level)
  }

  function NumbersIn(files: seq<File>): set<nat>
  {
    set f | f in files :: f.number
  }

  function NumbersOf(inputs: seq<InputFiles>): set<nat>
  {
    NumbersIn(AllFiles(inputs))
  }

  predicate CompactionOk(levels: seq<seq<File>>, c: Compaction)
  {
    && InputsOk(levels, c.inputs) && c.startLevel == c.inputs[0].level
    && AllFiles(c.inputs) != [] && c.range == Hull(AllFiles(c.inputs))
  }

  /** No file is in two of them, and none writes where another of the same output level, not 0, writes. */
  predicate KeptApart(c: Compaction, d: Compaction)
  {
    && c.id != d.id && NumbersOf(c.inputs) !! NumbersOf(d.inputs)
    && (c.outputLevel == d.outputLevel != 0 ==> !Meets(c.range, d.range))
  }

  predicate AllApart(running: seq<Compaction>)
  {
    forall i, j :: 0 <= i < j < |running| ==> KeptApart(running[i], running[j])
  }

  function Marked(running: seq<Compaction>): set<nat>
  {
    if running == [] then {} else Marked(running[..|running| - 1]) + NumbersOf(running[|running| - 1].inputs)
  }

  function FromLevel0(running: seq<Compaction>): seq<Compaction>
  {
    if running == [] then []
    else FromLevel0(running[..|running| - 1]) +
         if running[|running| - 1].startLevel == 0 then [running[|running| - 1]] else []
  }

  /** No input that is still there has moved to a level above. */
  predicate NotRaised(levels: seq<seq<File>>, inputs: seq<InputFiles>)
  {
    forall i, f, l, g :: 0 <= i < |inputs| && f in inputs[i].files && 0 <= l < |levels| && g in levels[l] ==>
      g.number == f.number ==> inputs[i].level <= l
  }

  /** A compaction was picked from levels that may have changed since. Once its result is installed its inputs
      are gone, or have moved down, while it is still registered. */
  ghost predicate Registered(levels: seq<seq<File>>, c: Compaction)
  {
    NotRaised(levels, c.inputs) && exists was :: LevelsOk(was) && CompactionOk(was, c)
  }

  /** The picker's state: marks on files and lists of compactions say the same. */
  ghost predicate StateOk(levels: seq<seq<File>>, busy: set<nat>, running: seq<Compaction>, level0: seq<Compaction>,
                          nextId: nat)
  {
    && LevelsOk(levels) && AllApart(running) && busy == Marked(running) && level0 == FromLevel0(running)
    && (forall i :: 0 <= i < |running| ==> Registered(levels, running[i]) && running[i].id < nextId)
  }

  /** None of them has installed its result yet. */
  predicate Unfinished(levels: seq<seq<File>>, running: seq<Compaction>)
  {
    forall i :: 0 <= i < |running| ==> CompactionOk(levels, running[i])
  }

  // ----- files and marks

  lemma NotMarked(files: seq<File>, busy: set<nat>)
    requires !AnyBusy(files, busy)
    ensures forall f :: f in files ==> f.number !in busy
  {
  }

  lemma OneInput(start: InputFiles)
    requires start.files != [] && (start.level > 0 ==> SortedLevel(start.files))
    ensures Ordered([start]) && AllFiles([start]) == start.files
  {
    assert [start][..0] == [] && [] + start.files == start.files;
  }

  lemma InputsFacts(levels: seq<seq<File>>, inputs: seq<InputFiles>)
    requires InputsOk(levels, inputs)
    ensures Ordered(inputs) && AllFiles(inputs) != []
  {
    SomeFiles(inputs);
  }

  lemma NoNumbers(inputs: seq<InputFiles>)
    ensures NumbersOf(inputs[..0]) == {}
  {
  }

  lemma NoNumbersIn(files: seq<File>)
    ensures NumbersIn(files[..0]) == {}
  {
  }

  lemma InNumbers(inputs: seq<InputFiles>, i: nat, j: nat)
    requires i < |inputs| && j < |inputs[i].files|
    ensures inputs[i].files[j].number in NumbersOf(inputs)
  {
    var f := inputs[i].files[j];
    assert f in inputs[i].files;
    AllFilesHas(inputs, f);
  }

  lemma FilesOfTwo(chosen: InputFiles, outputs: InputFiles)
    ensures AllFiles(if outputs.files == [] then [chosen] else [chosen, outputs]) == chosen.files + outputs.files
  {
    assert [chosen][..0] == [] && AllFiles([]) + chosen.files == chosen.files == chosen.files + [];
    assert [chosen, outputs][..1] == [chosen];
  }

  lemma {:induction false} MarkedHas(running: seq<Compaction>, n: nat)
    ensures n in Marked(running) <==> exists i :: 0 <= i < |running| && n in NumbersOf(running[i].inputs)
  {
    if running != [] {
      var m := |running| - 1;
      MarkedHas(running[..m], n);
      if i :| 0 <= i < m && n in NumbersOf(running[..m][i].inputs) {
        assert n in NumbersOf(running[i].inputs);
      }
      if i :| 0 <= i < m && n in NumbersOf(running[i].inputs) {
        assert n in NumbersOf(running[..m][i].inputs);
      }
    }
  }

  lemma {:induction false} NoneFromLevel0(running: seq<Compaction>, i: nat)
    requires FromLevel0(running) == [] && i < |running|
    ensures running[i].startLevel != 0
  {
    if i < |running| - 1 {
      NoneFromLevel0(running[..|running| - 1], i);
    }
  }

  /** What did not start on level 0 has none of its files. */
  lemma NotOnTop(levels: seq<seq<File>>, c: Compaction, f: File)
    requires Registered(levels, c) && c.startLevel != 0 && 0 < |levels| && f in levels[0]
    ensures f.number !in NumbersOf(c.inputs)
  {
    hide LevelsOk, AllFiles;
    forall g | g in AllFiles(c.inputs) ensures g.number != f.number {
      AllFilesHas(c.inputs, g);
      var k :| 0 <= k < |c.inputs| && g in c.inputs[k].files;
      assert c.inputs[0].level <= c.inputs[k].level;
    }
  }

  /** No compaction from level 0 is running, so no file of level 0 is taken. */
  lemma Level0Free(levels: seq<seq<File>>, busy: set<nat>, running: seq<Compaction>, nextId: nat, f: File)
    requires StateOk(levels, busy, running, [], nextId) && 0 < |levels| && f in levels[0]
    ensures f.number !in busy
  {
    hide LevelsOk, AllApart, Registered, NumbersOf;
    MarkedHas(running, f.number);
    forall i | 0 <= i < |running| ensures f.number !in NumbersOf(running[i].inputs) {
      NoneFromLevel0(running, i);
      NotOnTop(levels, running[i], f);
    }
  }

  lemma SameFile(levels: seq<seq<File>>, l: nat, m: nat, f: File, g: File)
    requires LevelsOk(levels) && l < |levels| && m < |levels|
    requires f in levels[l] && g in levels[m] && f.number == g.number
    ensures l == m && f == g
  {
    var i :| 0 <= i < |levels[l]| && levels[l][i] == f;
    var j :| 0 <= j < |levels[m]| && levels[m][j] == g;
  }

  /** What was just picked is where it was picked. */
  lemma JustPicked(levels: seq<seq<File>>, c: Compaction)
    requires LevelsOk(levels) && CompactionOk(levels, c)
    ensures Registered(levels, c)
  {
    hide LevelsOk, AllFiles, Hull;
    forall i, f, l, g | 0 <= i < |c.inputs| && f in c.inputs[i].files && 0 <= l < |levels| && g in levels[l]
      ensures g.number == f.number ==> c.inputs[i].level <= l
    {
      if g.number == f.number {
        SameFile(levels, c.inputs[i].level, l, f, g);
      }
    }
  }

  /** The inputs name no file twice, within a level or across. */
  lemma FreshMark(levels: seq<seq<File>>, inputs: seq<InputFiles>, i: nat, j: nat)
    requires LevelsOk(levels) && InputsOk(levels, inputs) && i < |inputs| && j < |inputs[i].files|
    ensures inputs[i].files[j].number !in NumbersOf(inputs[..i]) + NumbersIn(inputs[i].files[..j])
  {
    hide LevelsOk;
    var f := inputs[i].files[j];
    assert f in inputs[i].files && f in levels[inputs[i].level];
    if f.number in NumbersOf(inputs[..i]) {
      var g :| g in AllFiles(inputs[..i]) && g.number == f.number;
      AllFilesHas(inputs[..i], g);
      var k :| 0 <= k < i && g in inputs[..i][k].files;
      assert g in inputs[k].files && g in levels[inputs[k].level];
      SameFile(levels, inputs[i].level, inputs[k].level, f, g);
    }
  }

  lemma NumbersStep(inputs: seq<InputFiles>, i: nat)
    requires i < |inputs|
    ensures NumbersOf(inputs[..i + 1]) == NumbersOf(inputs[..i]) + NumbersIn(inputs[i].files)
  {
    hide AllFiles;
    AllFilesStep(inputs, i);
  }

  lemma NumbersSnoc(files: seq<File>, j: nat)
    requires j < |files|
    ensures NumbersIn(files[..j + 1]) == NumbersIn(files[..j]) + {files[j].number}
  {
    assert files[..j + 1] == files[..j] + [files[j]];
    assert files[j] in files[..j + 1];
  }

  // ----- runs of compactions

  function Without(running: seq<Compaction>, id: nat): seq<Compaction>
  {
    if running == [] then []
    else Without(running[..|running| - 1], id) +
         if running[|running| - 1].id == id then [] else [running[|running| - 1]]
  }

  lemma {:induction false} WithoutHas(running: seq<Compaction>, id: nat, c: Compaction)
    ensures c in Without(running, id) <==> c in running && c.id != id
  {
    if running != [] {
      var n := |running| - 1;
      WithoutHas(running[..n], id, c);
      assert running == running[..n] + [running[n]];
    }
  }

  lemma {:induction false} WithoutApart(running: seq<Compaction>, id: nat)
    requires AllApart(running)
    ensures AllApart(Without(running, id))
  {
    if running != [] {
      var n := |running| - 1;
      WithoutApart(running[..n], id);
      var rest := Without(running[..n], id);
      forall i | 0 <= i < |rest| ensures KeptApart(rest[i], running[n]) {
        WithoutHas(running[..n], id, rest[i]);
        var k :| 0 <= k < n && running[..n][k] == rest[i];
        assert running[k] == rest[i];
      }
    }
  }

  lemma {:induction false} WithoutLevel0(running: seq<Compaction>, id: nat)
    ensures FromLevel0(Without(running, id)) == Without(FromLevel0(running), id)
  {
    if running != [] {
      var n := |running| - 1;
      var c, rest := running[n], Without(running[..n], id);
      WithoutLevel0(running[..n], id);
      var front := FromLevel0(running[..n]);
      if c.id == id {
        assert rest + [] == rest;
        if c.startLevel == 0 {
          assert (front + [c])[..|front|] == front && Without(front, id) + [] == Without(front, id);
        } else {
          assert front + [] == front;
        }
      } else {
        assert (rest + [c])[..|rest|] == rest;
        if c.startLevel == 0 {
          assert (front + [c])[..|front|] == front;
        } else {
          assert front + [] == front && FromLevel0(rest) + [] == FromLevel0(rest);
        }
      }
    }
  }

  lemma ApartPair(running: seq<Compaction>, j: nat, k: nat)
    requires AllApart(running) && j < |running| && k < |running| && j != k
    ensures KeptApart(running[j], running[k])
  {
    assert if j < k then KeptApart(running[j], running[k]) else KeptApart(running[k], running[j]);
  }

  /** Removing one compaction takes exactly its files' marks away. */
  lemma WithoutMarks(running: seq<Compaction>, k: nat)
    requires AllApart(running) && k < |running|
    ensures Marked(Without(running, running[k].id)) == Marked(running) - NumbersOf(running[k].inputs)
  {
    hide NumbersOf, Without, Marked;
    var c := running[k];
    var rest := Without(running, c.id);
    forall n ensures n in Marked(rest) <==> n in Marked(running) && n !in NumbersOf(c.inputs) {
      MarkedHas(running, n);
      MarkedHas(rest, n);
      if i :| 0 <= i < |rest| && n in NumbersOf(rest[i].inputs) {
        WithoutHas(running, c.id, rest[i]);
        var j :| 0 <= j < |running| && running[j] == rest[i];
        assert j != k;
        ApartPair(running, j, k);
      }
      if j :| 0 <= j < |running| && n in NumbersOf(running[j].inputs) && n !in NumbersOf(c.inputs) {
        assert j != k;
        ApartPair(running, j, k);
        WithoutHas(running, c.id, running[j]);
        var i :| 0 <= i < |rest| && rest[i] == running[j];
      }
    }
  }

  lemma NoId(level0: seq<Compaction>, id: nat)
    requires forall i :: 0 <= i < |level0| ==> level0[i].id != id
    ensures Without(level0, id) == level0
  {
  }

  lemma {:induction false} FromLevel0Has(running: seq<Compaction>, c: Compaction)
    ensures c in FromLevel0(running) <==> c in running && c.startLevel == 0
  {
    if running != [] {
      var n := |running| - 1;
      FromLevel0Has(running[..n], c);
      assert running == running[..n] + [running[n]];
    }
  }

  lemma Left(levels: seq<seq<File>>, busy: set<nat>, running: seq<Compaction>, level0: seq<Compaction>, nextId: nat,
             k: nat)
    requires StateOk(levels, busy, running, level0, nextId) && k < |running|
    ensures var c := running[k];
            && StateOk(levels, busy - NumbersOf(c.inputs), Without(running, c.id), Without(level0, c.id), nextId)
            && (c.startLevel != 0 ==> Without(level0, c.id) == level0)
            && NumbersOf(c.inputs) <= busy
  {
    hide LevelsOk, NumbersOf, Without, Marked, FromLevel0, Registered;
    var c := running[k];
    WithoutApart(running, c.id);
    WithoutLevel0(running, c.id);
    WithoutMarks(running, k);
    var rest := Without(running, c.id);
    forall i | 0 <= i < |rest| ensures Registered(levels, rest[i]) && rest[i].id < nextId {
      WithoutHas(running, c.id, rest[i]);
    }
    forall n | n in NumbersOf(c.inputs) ensures n in busy {
      MarkedHas(running, n);
    }
    if c.startLevel != 0 {
      forall i | 0 <= i < |level0| ensures level0[i].id != c.id {
        FromLevel0Has(running, level0[i]);
        var j :| 0 <= j < |running| && running[j] == level0[i];
        assert j != k;
        ApartPair(running, j, k);
      }
      NoId(level0, c.id);
    }
  }

  lemma Joined(levels: seq<seq<File>>, busy: set<nat>, running: seq<Compaction>, level0: seq<Compaction>, nextId: nat,
               c: Compaction)
    requires StateOk(levels, busy, running, level0, nextId) && CompactionOk(levels, c) && c.id == nextId
    requires NumbersOf(c.inputs) !! busy && (c.outputLevel != 0 ==> !Conflicts(running, c.range, c.outputLevel))
    ensures StateOk(levels, busy + NumbersOf(c.inputs), running + [c],
                    if c.startLevel == 0 then level0 + [c] else level0, nextId + 1)
  {
    hide LevelsOk, NumbersOf, CompactionOk, Registered;
    JustPicked(levels, c);
    var more := running + [c];
    assert more[..|running|] == running;
    forall i | 0 <= i < |running| ensures KeptApart(running[i], c) {
      forall n | n in NumbersOf(running[i].inputs) ensures n in busy {
        MarkedHas(running, n);
      }
      assert running[i].outputLevel == c.outputLevel != 0 ==> !Meets(c.range, running[i].range);
    }
  }

  /** With a clash of key ranges on an output level other than 0 the state is not consistent any more. */
  lemma NotJoined(levels: seq<seq<File>>, busy: set<nat>, running: seq<Compaction>, level0: seq<Compaction>,
                  nextId: nat, c: Compaction)
    requires c.outputLevel != 0 && Conflicts(running, c.range, c.outputLevel)
    ensures !StateOk(levels, busy, running + [c], level0, nextId)
  {
    hide LevelsOk, NumbersOf, Hull, Registered, Marked, FromLevel0;
    var i :| 0 <= i < |running| && running[i].outputLevel == c.outputLevel && Meets(c.range, running[i].range);
    var more := running + [c];
    assert more[i] == running[i] && more[|running|] == c && !KeptApart(more[i], more[|running|]);
  }

  /** A compaction running alone. */
  lemma Alone(levels: seq<seq<File>>, c: Compaction)
    requires LevelsOk(levels) && Registered(levels, c) && c.id == 0
    ensures StateOk(levels, NumbersOf(c.inputs), [c], if c.startLevel == 0 then [c] else [], 1)
  {
    hide LevelsOk, Registered, NumbersOf;
    assert [c][..0] == [];
    assert Marked([]) == {} && FromLevel0([]) == [];
  }
}
