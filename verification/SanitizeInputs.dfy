/** Completing the files a user names for a compaction. */
module SanitizeInputs {
  import opened CompactionFiles
  import opened CleanCuts

  datatype Status = Ok | Aborted | InvalidArgument

  /** HaveOverlappingKeyRanges, branch by branch. */
  function HaveOverlappingKeyRanges(a: Range, b: Range): (r: bool)
    ensures a.lo <= a.hi && b.lo <= b.hi ==> (r <==> Meets(a, b))
  {
    if a.lo >= b.lo && a.lo <= b.hi then true
    else if a.lo < b.lo && a.hi >= b.lo then true
    else if a.hi <= b.hi && a.hi >= b.lo then true
    else if a.hi > b.hi && a.lo <= b.hi then true
    else false
  }

  /** The numbers of the files `a` to `b - 1`. */
  function Numbers(files: seq<File>, a: nat, b: nat): set<nat>
    requires b <= |files|
  {
    set i | a <= i < b :: files[i].number
  }

  function MeetingNumbers(files: seq<File>, r: Range): set<nat>
  {
    set i | 0 <= i < |files| && Meets(r, Span(files[i])) :: files[i].number
  }

  /** The first and the last file of a level that are named; none if `last < 0`. */
  method FindIncluded(files: seq<File>, named: set<nat>) returns (first: nat, last: int)
    ensures -1 <= last < |files| && first <= |files|
    ensures forall i :: 0 <= i < |files| && files[i].number in named ==> first <= i <= last
    ensures last >= 0 ==> first <= last && files[first].number in named && files[last].number in named
  {
    first, last := |files|, -1;
    for f := 0 to |files|
      invariant -1 <= last < f && (last == -1 ==> first == |files|)
      invariant forall i :: 0 <= i < f && files[i].number in named ==> first <= i <= last
      invariant last >= 0 ==> first <= last && files[first].number in named && files[last].number in named
    {
      if files[f].number in named {
        first := if f < first then f else first;
        last := if last < f then f else last;
      }
    }
  }

  /** Takes in the neighbours that share a user key with the run `first` to `last`. */
  method ExpandTouching(files: seq<File>, first0: nat, last0: nat) returns (first: nat, last: nat)
    requires first0 <= last0 < |files|
    ensures first <= first0 && last0 <= last < |files| && CleanCut(files, first, last + 1)
    ensures first == LeastLow(files, first0) && last + 1 == LeastHigh(files, last0 + 1)
  {
    first, last := first0, last0;
    while first > 0
      invariant first <= first0 && LeastLow(files, first) == LeastLow(files, first0)
      invariant first == 0 ==> CleanLow(files, first)
    {
      if files[first - 1].largest < files[first].smallest {
        break;
      }
      first := first - 1;
    }
    while last < |files| - 1
      invariant last0 <= last < |files| && LeastHigh(files, last + 1) == LeastHigh(files, last0 + 1)
    {
      if files[last + 1].smallest > files[last].largest {
        break;
      }
      last := last + 1;
    }
  }

  /** Adds the files `first` to `last`, unless one is being compacted. */
  method IncludeRun(files: seq<File>, first: nat, last: nat, busy: set<nat>, named: set<nat>)
    returns (ok: bool, named': set<nat>)
    requires first <= last < |files|
    ensures ok <==> Numbers(files, first, last + 1) !! busy
    ensures ok ==> named' == named + Numbers(files, first, last + 1)
  {
    ok, named' := true, named;
    for f := first to last + 1
      invariant ok && forall i :: first <= i < f ==> files[i].number !in busy
      invariant named' == named + Numbers(files, first, f)
    {
      if files[f].number in busy {
        assert files[f].number in Numbers(files, first, last + 1);
        return false, named';
      }
      named' := named' + {files[f].number};
    }
  }

  /** Adds the files of a level that meet a range, unless one is being compacted. */
  method IncludeMeeting(files: seq<File>, r: Range, busy: set<nat>, named: set<nat>)
    returns (ok: bool, named': set<nat>)
    requires r.lo <= r.hi && forall i :: 0 <= i < |files| ==> files[i].smallest <= files[i].largest
    ensures ok <==> MeetingNumbers(files, r) !! busy
    ensures ok ==> named' == named + MeetingNumbers(files, r)
  {
    named' := named;
    for f := 0 to |files|
      invariant forall i :: 0 <= i < f && Meets(r, Span(files[i])) ==> files[i].number !in busy
      invariant named' == named + set i | 0 <= i < f && Meets(r, Span(files[i])) :: files[i].number
    {
      if HaveOverlappingKeyRanges(r, Span(files[f])) {
        if files[f].number in busy {
          assert files[f].number in MeetingNumbers(files, r);
          return false, named';
        }
        named' := named' + {files[f].number};
      }
    }
    ok := true;
  }

  // ----- the files that have to go along with the named ones, as a function of the request

  /** The first named file of a level, and one past the last. */
  function First(files: seq<File>, named: set<nat>): (f: nat)
    ensures f <= |files| && (forall i :: 0 <= i < f ==> files[i].number !in named)
    ensures f < |files| ==> files[f].number in named
  {
    if files == [] || files[0].number in named then 0 else 1 + First(files[1..], named)
  }

  function End(files: seq<File>, named: set<nat>): (e: nat)
    ensures e <= |files| && (forall i :: e <= i < |files| ==> files[i].number !in named)
    ensures e > 0 ==> files[e - 1].number in named
    ensures First(files, named) < |files| ==> First(files, named) < e
  {
    if files == [] || files[|files| - 1].number in named then |files|
    else End(files[..|files| - 1], named)
  }

  /** The run of a level that has to go along: the least clean cut around the named files or, on level 0,
      everything older than the newest of them, unless the output stays there. */
  function RunStart(files: seq<File>, named: set<nat>, l: nat): (a: nat)
    requires First(files, named) < |files|
    ensures a <= First(files, named)
  {
    if l == 0 then First(files, named) else LeastLow(files, First(files, named))
  }

  function RunEnd(files: seq<File>, named: set<nat>, l: nat, output: nat): (b: nat)
    requires First(files, named) < |files|
    ensures First(files, named) < b <= |files|
  {
    if l > 0 then LeastHigh(files, End(files, named)) else if output > 0 then |files| else End(files, named)
  }

  /** What goes along so far, and its range once there is something up to the output level. */
  datatype Completion = Completion(named: set<nat>, started: bool, range: Range)

  function RangeWith(c: Completion, run: Range): Range
  {
    if c.started then Join(c.range, run) else run
  }

  /** The range after level `l`, which has a named file. */
  function LevelRange(levels: seq<seq<File>>, c: Completion, l: nat, output: nat): Range
    requires l <= output < |levels| && First(levels[l], c.named) < |levels[l]|
  {
    RangeWith(c, Hull(levels[l][RunStart(levels[l], c.named, l)..RunEnd(levels[l], c.named, l, output)]))
  }

  /** The numbers of the files of levels `a` to `b - 1` that meet a range. */
  function Below(levels: seq<seq<File>>, a: nat, b: nat, r: Range): set<nat>
    requires b <= |levels|
  {
    set m, j | a <= m < b && 0 <= j < |levels[m]| && Meets(r, Span(levels[m][j])) :: levels[m][j].number
  }

  /** What level `l` adds: its run, and the files from there down to the output level that meet the range. */
  function LevelFiles(levels: seq<seq<File>>, c: Completion, l: nat, output: nat): set<nat>
    requires l <= output < |levels|
  {
    if First(levels[l], c.named) == |levels[l]| then {}
    else
      Numbers(levels[l], RunStart(levels[l], c.named, l), RunEnd(levels[l], c.named, l, output))
      + Below(levels, if l == 0 then 1 else l, output + 1, LevelRange(levels, c, l, output))
  }

  function WithLevel(levels: seq<seq<File>>, c: Completion, l: nat, output: nat): Completion
    requires l <= output < |levels|
  {
    if First(levels[l], c.named) == |levels[l]| then c
    else Completion(c.named + LevelFiles(levels, c, l, output), true, LevelRange(levels, c, l, output))
  }

  /** After the levels before `l`. */
  function Completed(levels: seq<seq<File>>, named: set<nat>, l: nat, output: nat): Completion
    requires l <= output + 1 <= |levels|
  {
    if l == 0 then Completion(named, false, Range(0, 0))
    else WithLevel(levels, Completed(levels, named, l - 1, output), l - 1, output)
  }

  /** The request with everything that has to go along, and the range that is checked. */
  function Full(levels: seq<seq<File>>, named: set<nat>, output: nat): Completion
    requires output < |levels|
  {
    Completed(levels, named, output + 1, output)
  }

  /** None of the files up to the output level is being compacted. */
  predicate Free(levels: seq<seq<File>>, named: set<nat>, busy: set<nat>, output: nat)
    requires output < |levels|
  {
    forall k, i :: 0 <= k <= output && 0 <= i < |levels[k]| && levels[k][i].number in named ==>
      levels[k][i].number !in busy
  }

  lemma {:induction false} CompletedGrows(levels: seq<seq<File>>, named: set<nat>, l: nat, m: nat, output: nat)
    requires l <= m <= output + 1 <= |levels|
    ensures Completed(levels, named, l, output).named <= Completed(levels, named, m, output).named
  {
    if l < m {
      CompletedGrows(levels, named, l, m - 1, output);
    }
  }

  lemma StepCompleted(levels: seq<seq<File>>, named: set<nat>, l: nat, output: nat)
    requires l <= output < |levels|
    ensures Completed(levels, named, l + 1, output) == WithLevel(levels, Completed(levels, named, l, output), l, output)
  {
  }

  lemma LevelFileAt(levels: seq<seq<File>>, c: Completion, l: nat, output: nat, n: nat)
    requires l <= output < |levels| && n in LevelFiles(levels, c, l, output)
    ensures exists k, i :: l <= k <= output && 0 <= i < |levels[k]| && levels[k][i].number == n
  {
    hide RunStart, RunEnd, LevelRange;
    var a, b := RunStart(levels[l], c.named, l), RunEnd(levels[l], c.named, l, output);
    if n in Numbers(levels[l], a, b) {
      var i :| a <= i < b && levels[l][i].number == n;
    } else {
      var r, from := LevelRange(levels, c, l, output), if l == 0 then 1 else l;
      var k, i :| from <= k <= output && 0 <= i < |levels[k]| && levels[k][i].number == n
                  && Meets(r, Span(levels[k][i]));
    }
  }

  /** A level that would add a file being compacted cannot be completed. */
  lemma LevelTaken(levels: seq<seq<File>>, named: set<nat>, busy: set<nat>, l: nat, output: nat)
    requires l <= output < |levels|
    requires !(LevelFiles(levels, Completed(levels, named, l, output), l, output) !! busy)
    ensures !Free(levels, Full(levels, named, output).named, busy, output)
  {
    hide Completed, RunStart, RunEnd, LevelRange;
    var c := Completed(levels, named, l, output);
    var n :| n in LevelFiles(levels, c, l, output) && n in busy;
    assert n in Completed(levels, named, l + 1, output).named by {
      StepCompleted(levels, named, l, output);
    }
    CompletedGrows(levels, named, l + 1, output + 1, output);
    LevelFileAt(levels, c, l, output, n);
  }

  // ----- what holds once the levels before `l` are done

  predicate Inc(levels: seq<seq<File>>, named: set<nat>, k: nat, i: nat)
    requires k < |levels| && i < |levels[k]|
  {
    levels[k][i].number in named
  }

  /** Every file below (or beside, except on level 0) an included one that meets it is included. */
  predicate Closed(levels: seq<seq<File>>, named: set<nat>, k: nat, output: nat)
    requires k <= output < |levels|
  {
    forall i, m, j :: 0 <= i < |levels[k]| && k <= m <= output && 0 < m && 0 <= j < |levels[m]| ==>
      Inc(levels, named, k, i) && Meets(Span(levels[k][i]), Span(levels[m][j])) ==> Inc(levels, named, m, j)
  }

  /** On level 0, where files are in order of age, everything older than an included file is included. */
  predicate OlderIncluded(files: seq<File>, named: set<nat>)
  {
    forall i, j :: 0 <= i < j < |files| && files[i].number in named ==> files[j].number in named
  }

  predicate LevelDone(levels: seq<seq<File>>, named: set<nat>, busy: set<nat>, r: Range, k: nat, output: nat)
    requires k <= output < |levels|
  {
    && Closed(levels, named, k, output)
    && (k == 0 && output > 0 ==> OlderIncluded(levels[0], named))
    && (forall i :: 0 <= i < |levels[k]| && Inc(levels, named, k, i) ==>
          levels[k][i].number !in busy && Within(Span(levels[k][i]), r))
  }

  /** The levels before `l` are done within the range `r`; the files further down that meet it are in. */
  predicate Upto(levels: seq<seq<File>>, named: set<nat>, busy: set<nat>, started: bool, r: Range, l: nat, output: nat)
    requires l <= output + 1 <= |levels|
  {
    && r.lo <= r.hi
    && (forall k :: 0 <= k < l ==> LevelDone(levels, named, busy, r, k, output))
    && (started ==> forall m, j :: l <= m <= output && 0 < m && 0 <= j < |levels[m]| ==>
          Meets(r, Span(levels[m][j])) ==> Inc(levels, named, m, j))
    && (!started ==> forall k, i :: 0 <= k < l && 0 <= i < |levels[k]| ==> !Inc(levels, named, k, i))
  }

  predicate At(levels: seq<seq<File>>, m: nat, j: nat, n: nat)
  {
    m < |levels| && j < |levels[m]| && levels[m][j].number == n
  }

  /** Only files of the levels `l` to `output` that meet the range were added. */
  ghost predicate Added(levels: seq<seq<File>>, named: set<nat>, named': set<nat>, r: Range, l: nat, output: nat)
    requires output < |levels|
  {
    && named <= named'
    && (forall n :: n in named' && n !in named ==>
          exists m: nat, j: nat :: l <= m <= output && At(levels, m, j, n) && Meets(r, Span(levels[m][j])))
  }

  lemma Unaffected(levels: seq<seq<File>>, named: set<nat>, named': set<nat>, r: Range, l: nat, output: nat,
                   k: nat, i: nat)
    requires LevelsOk(levels) && output < |levels| && Added(levels, named, named', r, l, output)
    requires k < l && k < |levels| && i < |levels[k]|
    ensures Inc(levels, named', k, i) <==> Inc(levels, named, k, i)
  {
    assert forall m: nat, j: nat :: At(levels, m, j, levels[k][i].number) ==> m == k;
  }

  lemma AddedMore(levels: seq<seq<File>>, named: set<nat>, named': set<nat>, r: Range, l: nat, output: nat)
    requires output < |levels| && Added(levels, named, named', r, l, output)
    ensures named <= named'
  {
  }

  lemma DoneStays(levels: seq<seq<File>>, named: set<nat>, named': set<nat>, busy: set<nat>, r: Range, r': Range,
                  l: nat, output: nat, k: nat)
    requires LevelsOk(levels) && k < l <= output < |levels| && Added(levels, named, named', r', l, output)
    requires Within(r, r') && LevelDone(levels, named, busy, r, k, output)
    ensures LevelDone(levels, named', busy, r', k, output)
  {
    hide LevelsOk, Added;
    forall i | 0 <= i < |levels[k]| ensures Inc(levels, named', k, i) <==> Inc(levels, named, k, i) {
      Unaffected(levels, named, named', r', l, output, k, i);
    }
    assert named <= named' by { AddedMore(levels, named, named', r', l, output); }
  }

  // ----- one level

  lemma BelowSnoc(levels: seq<seq<File>>, a: nat, b: nat, r: Range)
    requires a <= b < |levels|
    ensures Below(levels, a, b + 1, r) == Below(levels, a, b, r) + MeetingNumbers(levels[b], r)
  {
    forall n | n in MeetingNumbers(levels[b], r) ensures n in Below(levels, a, b + 1, r) {
      var i :| 0 <= i < |levels[b]| && Meets(r, Span(levels[b][i])) && levels[b][i].number == n;
    }
  }

  lemma NoneBelow(levels: seq<seq<File>>, a: nat, r: Range)
    ensures a <= |levels| ==> Below(levels, a, a, r) == {}
    ensures 0 < |levels| ==> Below(levels, 1, 1, r) == {}
  {
  }

  lemma BelowMore(levels: seq<seq<File>>, a: nat, b: nat, c: nat, r: Range)
    requires a <= b <= c <= |levels|
    ensures Below(levels, a, b, r) <= Below(levels, a, c, r)
  {
  }

  /** For all lower levels, includes the files that meet the range. */
  method IncludeBelow(levels: seq<seq<File>>, busy: set<nat>, named: set<nat>, r: Range, l: nat, output: nat)
    returns (ok: bool, named': set<nat>)
    requires LevelsOk(levels) && r.lo <= r.hi && l <= output < |levels|
    ensures var from := if l == 0 then 1 else l;
            && (ok <==> Below(levels, from, output + 1, r) !! busy)
            && (ok ==> named' == named + Below(levels, from, output + 1, r))
  {
    hide MeetingNumbers, Below;
    var from := if l == 0 then 1 else l;
    ok, named' := true, named;
    NoneBelow(levels, from, r);
    if from > output {
      NoneBelow(levels, output + 1, r);
      return;
    }
    var m := from;
    while m <= output
      invariant from <= m <= output + 1
      invariant ok && Below(levels, from, m, r) !! busy && named' == named + Below(levels, from, m, r)
    {
      BelowSnoc(levels, from, m, r);
      ok, named' := IncludeMeeting(levels[m], r, busy, named');
      if !ok {
        BelowMore(levels, from, m + 1, output + 1, r);
        return;
      }
      m := m + 1;
    }
  }

  /** The range of the files `first` to `last`, in key order, joined with what was there. */
  function RunRange(files: seq<File>, first: nat, last: nat, started: bool, r: Range): Range
    requires first <= last < |files|
  {
    var run := Range(files[first].smallest, files[last].largest);
    if started then Join(r, run) else run
  }

  /** A file beside the run that meets the joint range lies inside it. */
  lemma BesideRun(files: seq<File>, first: nat, last: nat, started: bool, r: Range, i: nat)
    requires SortedLevel(files) && CleanCut(files, first, last + 1) && i < |files| && r.lo <= r.hi
    requires !(first <= i <= last) && started ==> !Meets(r, Span(files[i]))
    ensures var r' := RunRange(files, first, last, started, r);
            (first <= i <= last ==> Within(Span(files[i]), r')) &&
            (Meets(r', Span(files[i])) ==> Within(Span(files[i]), r'))
  {
    if i < first {
      assert files[i].largest < files[first].smallest;
    } else if i > last {
      assert files[last].largest < files[i].smallest;
    }
  }

  /** All files of level `l` that are included now lie inside the new range and are free. */
  lemma LevelInside(levels: seq<seq<File>>, named: set<nat>, busy: set<nat>, started: bool, r: Range,
                    l: nat, output: nat, first: nat, last: nat, named': set<nat>, i: nat)
    requires LevelsOk(levels) && 0 < l <= output < |levels| && Upto(levels, named, busy, started, r, l, output)
    requires CleanCut(levels[l], first, last + 1) && i < |levels[l]|
    requires forall k :: 0 <= k < |levels[l]| && Inc(levels, named, l, k) ==> first <= k <= last
    requires Numbers(levels[l], first, last + 1) !! busy
    requires var r' := RunRange(levels[l], first, last, started, r);
             && Below(levels, l, output + 1, r') !! busy
             && named' == named + Numbers(levels[l], first, last + 1) + Below(levels, l, output + 1, r')
    ensures Inc(levels, named', l, i) ==>
              levels[l][i].number !in busy && Within(Span(levels[l][i]), RunRange(levels[l], first, last, started, r))
  {
    var files, n := levels[l], levels[l][i].number;
    var r' := RunRange(files, first, last, started, r);
    BesideRun(files, first, last, started, r, i);
    if n in named {
      assert Inc(levels, named, l, i);
      assert first <= i <= last;
      assert files[i].number in Numbers(files, first, last + 1);
    } else if n in Numbers(files, first, last + 1) {
      var k :| first <= k <= last && files[k].number == n;
      assert k == i;
    } else if n in Below(levels, l, output + 1, r') {
      var m, j :| l <= m <= output && 0 <= j < |levels[m]| && Meets(r', Span(levels[m][j])) && levels[m][j].number == n;
      assert m == l && j == i;
    }
  }

  lemma RunAdded(levels: seq<seq<File>>, named: set<nat>, r: Range, l: nat, output: nat, first: nat, last: nat)
    requires LevelsOk(levels) && l <= output < |levels| && first <= last < |levels[l]|
    requires forall i :: first <= i <= last ==> Within(Span(levels[l][i]), r)
    ensures var from := if l == 0 then 1 else l;
            Added(levels, named, named + Numbers(levels[l], first, last + 1) + Below(levels, from, output + 1, r),
                  r, l, output)
  {
    var from := if l == 0 then 1 else l;
    var run, below := Numbers(levels[l], first, last + 1), Below(levels, from, output + 1, r);
    forall n | n in named + run + below && n !in named
      ensures exists m: nat, j: nat :: l <= m <= output && At(levels, m, j, n) && Meets(r, Span(levels[m][j]))
    {
      if n in run {
        var i :| first <= i <= last && levels[l][i].number == n;
        assert At(levels, l, i, n) && Meets(r, Span(levels[l][i]));
      } else {
        var m, j :| from <= m <= output && 0 <= j < |levels[m]| && levels[m][j].number == n
                    && Meets(r, Span(levels[m][j]));
        assert At(levels, m, j, n);
      }
    }
  }

  lemma BesideInside(files: seq<File>, first: nat, last: nat, started: bool, r: Range, i: nat)
    requires SortedLevel(files) && first <= last < |files| && i < |files|
    ensures first <= i <= last ==> Within(Span(files[i]), RunRange(files, first, last, started, r))
  {
  }

  lemma InBelow(levels: seq<seq<File>>, a: nat, b: nat, r: Range, m: nat, j: nat)
    requires a <= m < b <= |levels| && j < |levels[m]| && Meets(r, Span(levels[m][j]))
    ensures levels[m][j].number in Below(levels, a, b, r)
  {
  }

  lemma ClosedWithin(levels: seq<seq<File>>, named: set<nat>, busy: set<nat>, r: Range, l: nat, output: nat)
    requires l <= output < |levels| && (l == 0 && output > 0 ==> OlderIncluded(levels[0], named))
    requires forall i :: 0 <= i < |levels[l]| && Inc(levels, named, l, i) ==>
               levels[l][i].number !in busy && Within(Span(levels[l][i]), r)
    requires forall m, j :: l <= m <= output && 0 < m && 0 <= j < |levels[m]| && Meets(r, Span(levels[m][j])) ==>
               Inc(levels, named, m, j)
    ensures LevelDone(levels, named, busy, r, l, output)
  {
  }

  lemma StartedGrows(levels: seq<seq<File>>, named: set<nat>, busy: set<nat>, started: bool, r: Range, r': Range,
                     l: nat, output: nat, k: nat, named': set<nat>)
    requires LevelsOk(levels) && k < l <= output < |levels| && Upto(levels, named, busy, started, r, l, output)
    requires Added(levels, named, named', r', l, output) && (started ==> Within(r, r'))
    ensures LevelDone(levels, named', busy, r', k, output)
  {
    hide LevelsOk, Added;
    if started {
      DoneStays(levels, named, named', busy, r, r', l, output, k);
    } else {
      forall i | 0 <= i < |levels[k]| ensures levels[k][i].number !in named' {
        Unaffected(levels, named, named', r', l, output, k, i);
      }
    }
  }

  /** Level `l` is done once its run and the files below that meet the new range are in. */
  lemma DeeperLevelDone(levels: seq<seq<File>>, named: set<nat>, busy: set<nat>, started: bool, r: Range,
                        l: nat, output: nat, first: nat, last: nat, named': set<nat>)
    requires LevelsOk(levels) && 0 < l <= output < |levels| && Upto(levels, named, busy, started, r, l, output)
    requires CleanCut(levels[l], first, last + 1)
    requires forall k :: 0 <= k < |levels[l]| && Inc(levels, named, l, k) ==> first <= k <= last
    requires Numbers(levels[l], first, last + 1) !! busy
    requires var r' := RunRange(levels[l], first, last, started, r);
             && Below(levels, l, output + 1, r') !! busy
             && named' == named + Numbers(levels[l], first, last + 1) + Below(levels, l, output + 1, r')
    ensures Upto(levels, named', busy, true, RunRange(levels[l], first, last, started, r), l + 1, output)
    ensures Added(levels, named, named', RunRange(levels[l], first, last, started, r), l, output)
  {
    hide Below, Numbers, Added, LevelDone;
    var r' := RunRange(levels[l], first, last, started, r);
    assert SortedLevel(levels[l]);
    assert levels[l][first].smallest <= levels[l][first].largest;
    forall i | 0 <= i < |levels[l]|
      ensures Inc(levels, named', l, i) ==> levels[l][i].number !in busy && Within(Span(levels[l][i]), r')
      ensures first <= i <= last ==> Within(Span(levels[l][i]), r')
    {
      LevelInside(levels, named, busy, started, r, l, output, first, last, named', i);
      BesideInside(levels[l], first, last, started, r, i);
    }
    RunAdded(levels, named, r', l, output, first, last);
    forall m, j | l <= m <= output && 0 <= j < |levels[m]| && Meets(r', Span(levels[m][j]))
      ensures Inc(levels, named', m, j)
    {
      InBelow(levels, l, output + 1, r', m, j);
    }
    ClosedWithin(levels, named', busy, r', l, output);
    forall k | 0 <= k < l ensures LevelDone(levels, named', busy, r', k, output) {
      StartedGrows(levels, named, busy, started, r, r', l, output, k, named');
    }
  }

  lemma TopOnly(levels: seq<seq<File>>, named: set<nat>, r: Range, output: nat, first: nat, last: nat, i: nat)
    requires LevelsOk(levels) && output < |levels| && first <= last < |levels[0]| && i < |levels[0]|
    requires forall k :: 0 <= k < |levels[0]| && Inc(levels, named, 0, k) ==> first <= k <= last
    ensures levels[0][i].number in named + Numbers(levels[0], first, last + 1) + Below(levels, 1, output + 1, r)
            <==> first <= i <= last
  {
    var n := levels[0][i].number;
    if n in named {
      assert Inc(levels, named, 0, i);
    }
  }

  lemma TopLevelDone(levels: seq<seq<File>>, named: set<nat>, busy: set<nat>, r: Range,
                     output: nat, first: nat, last: nat, named': set<nat>)
    requires LevelsOk(levels) && output < |levels| && first <= last < |levels[0]| && r.lo <= r.hi
    requires forall k :: 0 <= k < |levels[0]| && Inc(levels, named, 0, k) ==> first <= k <= last
    requires output > 0 ==> last == |levels[0]| - 1
    requires forall i :: first <= i <= last ==> Within(Span(levels[0][i]), r)
    requires Numbers(levels[0], first, last + 1) !! busy && Below(levels, 1, output + 1, r) !! busy
    requires named' == named + Numbers(levels[0], first, last + 1) + Below(levels, 1, output + 1, r)
    ensures Upto(levels, named', busy, true, r, 1, output) && Added(levels, named, named', r, 0, output)
  {
    hide Added, LevelDone, Below;
    var files := levels[0];
    RunAdded(levels, named, r, 0, output, first, last);
    forall i | 0 <= i < |files| ensures files[i].number in named' <==> first <= i <= last {
      TopOnly(levels, named, r, output, first, last, i);
    }
    forall m, j | 1 <= m <= output && 0 <= j < |levels[m]| && Meets(r, Span(levels[m][j]))
      ensures Inc(levels, named', m, j)
    {
      InBelow(levels, 1, output + 1, r, m, j);
    }
    forall i | first <= i <= last ensures files[i].number !in busy {
      assert files[i].number in Numbers(files, first, last + 1);
    }
    ClosedWithin(levels, named', busy, r, 0, output);
  }

  /** Takes the files `first` to `last`, in any order, into the range. */
  method Widen(files: seq<File>, first: nat, last: nat, r: Range) returns (r': Range)
    requires first <= last < |files|
    ensures r' == Join(r, Hull(files[first..last + 1]))
  {
    r' := r;
    for f := first to last + 1
      invariant r' == if f == first then r else Join(r, Hull(files[first..f]))
    {
      assert files[first..f + 1][..f - first] == files[first..f];
      if r'.lo > files[f].smallest {
        r' := r'.(lo := files[f].smallest);
      }
      if r'.hi < files[f].largest {
        r' := r'.(hi := files[f].largest);
      }
    }
  }

  predicate Named(levels: seq<seq<File>>, named: set<nat>, k: nat, i: nat)
  {
    k < |levels| && i < |levels[k]| && levels[k][i].number in named
  }

  /** The range is no larger than the included files make it. */
  ghost predicate Tight(levels: seq<seq<File>>, named: set<nat>, r: Range, output: nat)
  {
    && (exists k: nat, i: nat :: k <= output && Named(levels, named, k, i) && levels[k][i].smallest == r.lo)
    && (exists k: nat, i: nat :: k <= output && Named(levels, named, k, i) && levels[k][i].largest == r.hi)
  }

  lemma TightAgain(levels: seq<seq<File>>, named: set<nat>, named': set<nat>, r: Range, r': Range, output: nat,
                   l: nat, i: nat, j: nat)
    requires named <= named' && l <= output && Tight(levels, named, r, output)
    requires Named(levels, named', l, i) && Named(levels, named', l, j)
    requires r'.lo == r.lo || levels[l][i].smallest == r'.lo
    requires r'.hi == r.hi || levels[l][j].largest == r'.hi
    ensures Tight(levels, named', r', output)
  {
    var k0: nat, i0: nat :| k0 <= output && Named(levels, named, k0, i0) && levels[k0][i0].smallest == r.lo;
    var k1: nat, i1: nat :| k1 <= output && Named(levels, named, k1, i1) && levels[k1][i1].largest == r.hi;
    assert Named(levels, named', k0, i0) && Named(levels, named', k1, i1);
  }

  /** The run holds the named files of its level, and is one the lemmas about a level accept. */
  lemma RunAround(levels: seq<seq<File>>, named: set<nat>, l: nat, output: nat)
    requires l <= output < |levels| && First(levels[l], named) < |levels[l]|
    ensures var a, b := RunStart(levels[l], named, l), RunEnd(levels[l], named, l, output);
            && (forall k :: 0 <= k < |levels[l]| && Inc(levels, named, l, k) ==> a <= k <= b - 1)
            && a <= First(levels[l], named) < b <= |levels[l]| && Named(levels, named, l, First(levels[l], named))
            && if l > 0 then CleanCut(levels[l], a, b) else output > 0 ==> b == |levels[0]|
  {
  }

  lemma RangeOrdered(levels: seq<seq<File>>, named: set<nat>, busy: set<nat>, started: bool, r: Range,
                     l: nat, output: nat, found: nat)
    requires LevelsOk(levels) && l <= output < |levels| && Upto(levels, named, busy, started, r, l, output)
    requires found < |levels[l]|
    ensures r.lo <= r.hi && Span(levels[l][found]).lo <= Span(levels[l][found]).hi
    ensures forall i :: 0 <= i < |levels[l]| ==> levels[l][i].smallest <= levels[l][i].largest
  {
  }

  /** The ends of the joint range come from the range before or from two of the files. */
  lemma HullEnds(files: seq<File>, first: nat, last: nat, r: Range) returns (i: nat, j: nat)
    requires first <= last < |files|
    ensures var r' := Join(r, Hull(files[first..last + 1]));
            && Within(r, r') && (forall k :: first <= k <= last ==> Within(Span(files[k]), r'))
            && first <= i <= last && (r'.lo == r.lo || files[i].smallest == r'.lo)
            && first <= j <= last && (r'.hi == r.hi || files[j].largest == r'.hi)
  {
    hide Hull;
    var run := files[first..last + 1];
    forall k | first <= k <= last ensures Within(Span(files[k]), Hull(run)) {
      assert run[k - first] == files[k];
      HullCovers(run, k - first);
    }
    var a, b := HullOf(run);
    i, j := first + a, first + b;
  }

  lemma SkippedLevel(levels: seq<seq<File>>, named: set<nat>, busy: set<nat>, started: bool, r: Range, l: nat,
                     output: nat)
    requires LevelsOk(levels) && l <= output < |levels| && Upto(levels, named, busy, started, r, l, output)
    requires forall i :: 0 <= i < |levels[l]| ==> !Inc(levels, named, l, i)
    ensures Upto(levels, named, busy, started, r, l + 1, output) && Added(levels, named, named, r, l, output)
  {
    assert forall i :: 0 <= i < |levels[l]| ==> levels[l][i].number !in named by {
      forall i | 0 <= i < |levels[l]| ensures levels[l][i].number !in named {
        assert !Inc(levels, named, l, i);
      }
    }
  }

  /** Completing a level that adds no file being compacted keeps what holds about the levels. */
  lemma StepUpto(levels: seq<seq<File>>, c: Completion, busy: set<nat>, l: nat, output: nat)
    requires LevelsOk(levels) && l <= output < |levels| && (l == 0 ==> !c.started)
    requires Upto(levels, c.named, busy, c.started, c.range, l, output) && LevelFiles(levels, c, l, output) !! busy
    ensures var d := WithLevel(levels, c, l, output);
            && Upto(levels, d.named, busy, d.started, d.range, l + 1, output)
            && Added(levels, c.named, d.named, d.range, l, output) && (c.started ==> Within(c.range, d.range))
  {
    hide Upto, Added, LevelDone, Below, Numbers, Hull, RunStart, RunEnd, LevelsOk;
    var files := levels[l];
    if First(files, c.named) == |files| {
      assert forall i :: 0 <= i < |files| ==> !Inc(levels, c.named, l, i);
      SkippedLevel(levels, c.named, busy, c.started, c.range, l, output);
    } else {
      RunAround(levels, c.named, l, output);
      var first, last := RunStart(files, c.named, l), RunEnd(files, c.named, l, output) - 1;
      var d := WithLevel(levels, c, l, output);
      var run, below := Numbers(files, first, last + 1), Below(levels, if l == 0 then 1 else l, output + 1, d.range);
      assert LevelFiles(levels, c, l, output) == run + below;
      assert d.named == c.named + run + below;
      if l == 0 {
        var i, j := HullEnds(files, first, last, d.range);
        RangeOrdered(levels, c.named, busy, c.started, c.range, l, output, first);
        TopLevelDone(levels, c.named, busy, d.range, output, first, last, d.named);
      } else {
        LevelSorted(levels, l);
        SliceHull(files, first, last + 1);
        DeeperLevelDone(levels, c.named, busy, c.started, c.range, l, output, first, last, d.named);
      }
    }
  }

  lemma FoundInside(files: seq<File>, first: nat, last: nat, found: nat)
    requires first <= found <= last < |files|
    ensures Join(Span(files[found]), Hull(files[first..last + 1])) == Hull(files[first..last + 1])
  {
    HullCovers(files[first..last + 1], found - first);
  }

  lemma StartTight(levels: seq<seq<File>>, named: set<nat>, l: nat, i: nat, output: nat)
    requires l <= output && Named(levels, named, l, i)
    ensures Tight(levels, named, Span(levels[l][i]), output)
  {
  }

  lemma RunNamed(levels: seq<seq<File>>, named: set<nat>, named': set<nat>, l: nat, first: nat, last: nat, i: nat)
    requires l < |levels| && first <= i <= last < |levels[l]| && named + Numbers(levels[l], first, last + 1) <= named'
    ensures Named(levels, named', l, i)
  {
    assert levels[l][i].number in Numbers(levels[l], first, last + 1);
  }

  /** The ends of the range are those of files that are included. */
  lemma StepTight(levels: seq<seq<File>>, c: Completion, l: nat, output: nat)
    requires l <= output < |levels| && (c.started ==> Tight(levels, c.named, c.range, output))
    ensures var d := WithLevel(levels, c, l, output); d.started ==> Tight(levels, d.named, d.range, output)
  {
    hide Tight, Below, Numbers, Hull, RunStart, RunEnd;
    var files := levels[l];
    if First(files, c.named) < |files| {
      RunAround(levels, c.named, l, output);
      var found, first := First(files, c.named), RunStart(files, c.named, l);
      var last := RunEnd(files, c.named, l, output) - 1;
      var d := WithLevel(levels, c, l, output);
      StartTight(levels, c.named, l, found, output);
      FoundInside(files, first, last, found);
      var r0 := if c.started then c.range else Span(files[found]);
      var i, j := HullEnds(files, first, last, r0);
      RunNamed(levels, c.named, d.named, l, first, last, i);
      RunNamed(levels, c.named, d.named, l, first, last, j);
      TightAgain(levels, c.named, d.named, r0, d.range, output, l, i, j);
    }
  }

  lemma LevelRangeOrdered(levels: seq<seq<File>>, c: Completion, l: nat, output: nat)
    requires LevelsOk(levels) && l <= output < |levels| && c.range.lo <= c.range.hi
    requires First(levels[l], c.named) < |levels[l]|
    ensures LevelRange(levels, c, l, output).lo <= LevelRange(levels, c, l, output).hi
  {
    hide Hull, RunStart, RunEnd, First;
    var run := levels[l][RunStart(levels[l], c.named, l)..RunEnd(levels[l], c.named, l, output)];
    HullOrdered(run);
  }

  /** Includes the run `first` to `last` of a level and what meets the joint range further down. */
  method IncludeLevel(levels: seq<seq<File>>, busy: set<nat>, named: set<nat>, started: bool, r: Range,
                      l: nat, output: nat, found: nat, first: nat, last: nat)
    returns (ok: bool, named': set<nat>, r': Range)
    requires LevelsOk(levels) && l <= output < |levels| && r.lo <= r.hi && (l == 0 ==> !started)
    requires First(levels[l], named) == found < |levels[l]|
    requires first == RunStart(levels[l], named, l) && last + 1 == RunEnd(levels[l], named, l, output)
    ensures ok <==> LevelFiles(levels, Completion(named, started, r), l, output) !! busy
    ensures ok ==> Completion(named', true, r') == WithLevel(levels, Completion(named, started, r), l, output)
  {
    hide Below, Numbers, Hull, RunStart, RunEnd, First, LevelsOk;
    var files := levels[l];
    r' := r;
    RunAround(levels, named, l, output);
    FoundInside(files, first, last, found);
    var r0 := if started then r else Span(files[found]);
    ok, named' := IncludeRun(files, first, last, busy, named);
    if !ok {
      return;
    }
    if l == 0 {
      r' := Widen(files, first, last, r0);
    } else {
      LevelSorted(levels, l);
      SliceHull(files, first, last + 1);
      r' := Join(r0, Range(files[first].smallest, files[last].largest));
    }
    assert r' == LevelRange(levels, Completion(named, started, r), l, output);
    LevelRangeOrdered(levels, Completion(named, started, r), l, output);
    ok, named' := IncludeBelow(levels, busy, named', r', l, output);
  }

  lemma UptoOrdered(levels: seq<seq<File>>, named: set<nat>, busy: set<nat>, started: bool, r: Range, l: nat,
                    output: nat)
    requires l <= output < |levels| && Upto(levels, named, busy, started, r, l, output)
    ensures r.lo <= r.hi
  {
  }

  /** One round of the loop over the levels. */
  method SanitizeLevel(levels: seq<seq<File>>, busy: set<nat>, named: set<nat>, started: bool, r: Range,
                       l: nat, output: nat)
    returns (ok: bool, named': set<nat>, started': bool, r': Range)
    requires LevelsOk(levels) && l <= output < |levels| && Upto(levels, named, busy, started, r, l, output)
    requires (started ==> Tight(levels, named, r, output)) && (l == 0 ==> !started)
    ensures ok ==> Upto(levels, named', busy, started', r', l + 1, output) && (started ==> started' && Within(r, r'))
    ensures ok ==> Added(levels, named, named', r', l, output) && (started' ==> Tight(levels, named', r', output))
    ensures ok && !started' ==> r' == r && named' == named
    // refused exactly if it would add a file being compacted
    ensures ok <==> LevelFiles(levels, Completion(named, started, r), l, output) !! busy
    ensures ok ==> Completion(named', started', r') == WithLevel(levels, Completion(named, started, r), l, output)
  {
    hide Added, LevelDone, Tight, Upto, LevelsOk, Hull, Below, Numbers, LeastLow, LeastHigh;
    ok, named', started', r' := true, named, started, r;
    var files := levels[l];
    var first, last := FindIncluded(files, named);
    ghost var c := Completion(named, started, r);
    StepTight(levels, c, l, output);
    if last < 0 {
      StepUpto(levels, c, busy, l, output);
      return;
    }
    var found := first;
    if l != 0 {
      first, last := ExpandTouching(files, first, last);
    } else if output > 0 {
      last := |files| - 1;
    }
    UptoOrdered(levels, named, busy, started, r, l, output);
    ok, named', r' := IncludeLevel(levels, busy, named, started, r, l, output, found, first, last);
    started' := true;
    if ok {
      StepUpto(levels, c, busy, l, output);
    }
  }

  /** No file up to the output level is named. */
  predicate NoneUpTo(levels: seq<seq<File>>, named: set<nat>, output: nat)
    requires output < |levels|
  {
    forall k, i :: 0 <= k <= output && 0 <= i < |levels[k]| ==> levels[k][i].number !in named
  }

  ghost predicate Passes(levels: seq<seq<File>>, busy: set<nat>, running: seq<Compaction>, named: set<nat>, output: nat)
    requires output < |levels|
  {
    var full := Full(levels, named, output);
    Free(levels, full.named, busy, output) && !Conflicts(running, full.range, output)
  }

  lemma DoneFree(levels: seq<seq<File>>, named: set<nat>, busy: set<nat>, r: Range, output: nat)
    requires output < |levels| && forall k :: 0 <= k <= output ==> LevelDone(levels, named, busy, r, k, output)
    ensures Free(levels, named, busy, output)
  {
    forall k, i | 0 <= k <= output && 0 <= i < |levels[k]| && levels[k][i].number in named
      ensures levels[k][i].number !in busy
    {
      assert LevelDone(levels, named, busy, r, k, output) && Inc(levels, named, k, i);
    }
  }

  lemma NothingAdded(levels: seq<seq<File>>, named: set<nat>, r: Range, output: nat)
    requires output < |levels|
    ensures Added(levels, named, named, r, 0, output)
  {
  }

  lemma AddedOn(levels: seq<seq<File>>, named: set<nat>, named1: set<nat>, named2: set<nat>, r: Range, r': Range,
                started: bool, l: nat, output: nat)
    requires output < |levels|
    requires Added(levels, named, named1, r, 0, output) && Added(levels, named1, named2, r', l, output)
    requires if started then Within(r, r') else named1 == named
    ensures Added(levels, named, named2, r', 0, output)
  {
    forall n | n in named2 && n !in named
      ensures exists m: nat, j: nat :: 0 <= m <= output && At(levels, m, j, n) && Meets(r', Span(levels[m][j]))
    {
      if n in named1 {
        var m: nat, j: nat :| 0 <= m <= output && At(levels, m, j, n) && Meets(r, Span(levels[m][j]));
        assert Meets(r', Span(levels[m][j]));
      } else {
        var m: nat, j: nat :| l <= m <= output && At(levels, m, j, n) && Meets(r', Span(levels[m][j]));
      }
    }
  }

  lemma FirstCompleted(levels: seq<seq<File>>, named: set<nat>, output: nat)
    requires output < |levels|
    ensures Completed(levels, named, 0, output) == Completion(named, false, Range(0, 0))
  {
  }

  /** Completes the named files; `r` is the user-key range of what is included up to the output level. */
  method SanitizeForAllLevels(levels: seq<seq<File>>, busy: set<nat>, running: seq<Compaction>, named: set<nat>,
                              output: nat)
    returns (status: Status, named': set<nat>, ghost r: Range)
    requires LevelsOk(levels) && output < |levels|
    // accepted exactly if what goes along is free and nothing that runs writes to its range
    ensures status == Ok <==> Passes(levels, busy, running, named, output)
    ensures status != InvalidArgument && r == Full(levels, named, output).range
    ensures status == Ok ==> named' == Full(levels, named, output).named
    ensures status == Ok ==> forall k :: 0 <= k <= output ==> LevelDone(levels, named', busy, r, k, output)
    ensures status == Ok ==> Added(levels, named, named', r, 0, output) && !Conflicts(running, r, output)
    ensures status == Ok ==> Tight(levels, named', r, output) || (r == Range(0, 0) && named' == named)
  {
    hide Added, LevelDone, Tight, Conflicts, Completed, Free, LevelFiles, WithLevel;
    named', r := named, Full(levels, named, output).range;
    var range, started := Range(0, 0), false;
    NothingAdded(levels, named, range, output);
    FirstCompleted(levels, named, output);
    for l := 0 to output + 1
      invariant Upto(levels, named', busy, started, range, l, output)
      invariant if started then Tight(levels, named', range, output) else range == Range(0, 0) && named' == named
      invariant Added(levels, named, named', range, 0, output) && (l == 0 ==> !started)
      invariant Completion(named', started, range) == Completed(levels, named, l, output)
    {
      ghost var before, range0, started0 := named', range, started;
      StepCompleted(levels, named, l, output);
      var ok;
      ok, named', started, range := SanitizeLevel(levels, busy, named', started, range, l, output);
      if !ok {
        LevelTaken(levels, named, busy, l, output);
        return Aborted, named', r;
      }
      AddedOn(levels, named, before, named', range0, range, started0, l, output);
    }
    DoneFree(levels, named', busy, range, output);
    var overlap := RangeOverlapWithCompaction(running, range, output);
    status := if overlap then Aborted else Ok;
  }

  // ----- SanitizeCompactionInputFiles

  ghost predicate Exists(levels: seq<seq<File>>, n: nat)
  {
    exists k: nat, i: nat :: At(levels, k, i, n)
  }

  method FindFile(levels: seq<seq<File>>, n: nat) returns (found: bool)
    ensures found <==> Exists(levels, n)
  {
    for l := 0 to |levels|
      invariant forall k: nat, i: nat :: k < l ==> !At(levels, k, i, n)
    {
      for f := 0 to |levels[l]|
        invariant forall i: nat :: i < f ==> !At(levels, l, i, n)
      {
        if levels[l][f].number == n {
          assert At(levels, l, f, n);
          return true;
        }
      }
    }
    return false;
  }

  predicate ValidRequest(levels: seq<seq<File>>, maxOutputLevel: int, named: set<nat>, output: int)
  {
    0 <= output < |levels| && output <= maxOutputLevel && named != {}
  }

  /** The arguments are valid, every named file is there and free, and so is what goes along; and nothing that
      runs writes to its range. */
  ghost predicate Accepted(levels: seq<seq<File>>, busy: set<nat>, running: seq<Compaction>, maxOutputLevel: int,
                           named: set<nat>, output: int)
  {
    && ValidRequest(levels, maxOutputLevel, named, output) && Passes(levels, busy, running, named, output)
    && forall n :: n in named ==> Exists(levels, n) && n !in busy
  }

  lemma {:induction false} CompletedAt(levels: seq<seq<File>>, named: set<nat>, l: nat, output: nat, n: nat)
    requires l <= output + 1 <= |levels| && n in Completed(levels, named, l, output).named && n !in named
    ensures exists k, i :: 0 <= k <= output && 0 <= i < |levels[k]| && levels[k][i].number == n
  {
    hide LevelFiles, LevelRange;
    if l > 0 {
      var c := Completed(levels, named, l - 1, output);
      if n in c.named {
        CompletedAt(levels, named, l - 1, output, n);
      } else {
        LevelFileAt(levels, c, l - 1, output, n);
      }
    }
  }

  /** What goes along with the named files is up to the output level, so it has been found free. */
  lemma FullFree(levels: seq<seq<File>>, busy: set<nat>, running: seq<Compaction>, named: set<nat>, output: nat)
    requires LevelsOk(levels) && output < |levels| && Passes(levels, busy, running, named, output)
    ensures named <= Full(levels, named, output).named
    ensures forall n :: n in Full(levels, named, output).named && n !in named ==> Exists(levels, n) && n !in busy
  {
    hide Completed, Conflicts;
    CompletedGrows(levels, named, 0, output + 1, output);
    FirstCompleted(levels, named, output);
    forall n | n in Full(levels, named, output).named && n !in named ensures Exists(levels, n) && n !in busy {
      CompletedAt(levels, named, output + 1, output, n);
      var k, i :| 0 <= k <= output && 0 <= i < |levels[k]| && levels[k][i].number == n;
      assert At(levels, k, i, n);
    }
  }

  lemma {:induction false} NoneCompleted(levels: seq<seq<File>>, named: set<nat>, l: nat, output: nat)
    requires l <= output + 1 <= |levels| && NoneUpTo(levels, named, output)
    ensures Completed(levels, named, l, output) == Completion(named, false, Range(0, 0))
  {
    if l > 0 {
      NoneCompleted(levels, named, l - 1, output);
    }
  }

  lemma AddedExist(levels: seq<seq<File>>, named: set<nat>, named': set<nat>, r: Range, output: nat, n: nat)
    requires output < |levels| && Added(levels, named, named', r, 0, output) && n in named'
    ensures n in named || Exists(levels, n)
  {
    if n !in named {
      var m: nat, j: nat :| 0 <= m <= output && At(levels, m, j, n) && Meets(r, Span(levels[m][j]));
      assert At(levels, m, j, n);
    }
  }

  method SanitizeCompactionInputFiles(levels: seq<seq<File>>, busy: set<nat>, running: seq<Compaction>,
                                      maxOutputLevel: int, named: set<nat>, output: int)
    returns (status: Status, named': set<nat>, ghost r: Range)
    requires LevelsOk(levels)
    ensures status == Ok ==> 0 <= output < |levels| && output <= maxOutputLevel && named != {}
    ensures status == Ok ==> forall k :: 0 <= k <= output ==> LevelDone(levels, named', busy, r, k, output)
    ensures status == Ok ==> Added(levels, named, named', r, 0, output) && !Conflicts(running, r, output)
    ensures status == Ok ==> Tight(levels, named', r, output) || (r == Range(0, 0) && named' == named)
    ensures status == Ok ==> forall n :: n in named' ==> Exists(levels, n) && n !in busy
    // invalid arguments and missing files are refused as such, all else only for what runs already
    ensures status == Ok <==> Accepted(levels, busy, running, maxOutputLevel, named, output)
    ensures !ValidRequest(levels, maxOutputLevel, named, output) ==> status == InvalidArgument
    ensures ValidRequest(levels, maxOutputLevel, named, output) ==>
              && r == Full(levels, named, output).range
              && (status == Ok ==> named' == Full(levels, named, output).named)
              && (status == InvalidArgument ==> exists n :: n in named && !Exists(levels, n))
              && (status == Aborted ==> !Passes(levels, busy, running, named, output) || !(named !! busy))
  {
    hide Added, LevelDone, Tight, Exists, LevelsOk, Conflicts, Completed, Passes;
    named', r := named, Range(0, 0);
    if output >= |levels| || output > maxOutputLevel || output < 0 || named == {} {
      return InvalidArgument, named', r;
    }
    status, named', r := SanitizeForAllLevels(levels, busy, running, named, output);
    if status != Ok {
      return;
    }
    FullFree(levels, busy, running, named, output);
    var rest := named';
    while rest != {}
      invariant rest <= named' && forall n :: n in named' && n !in rest ==> Exists(levels, n) && n !in busy
      decreases |rest|
    {
      var n :| n in rest;
      var found := FindFile(levels, n);
      if !found {
        AddedExist(levels, named, named', r, output, n);
        return InvalidArgument, named', r;
      }
      if n in busy {
        return Aborted, named', r;
      }
      rest := rest - {n};
    }
  }

  // ----- GetCompactionInputsFromFileNumbers

  function Matching(files: seq<File>, named: set<nat>): (m: seq<File>)
    ensures forall f :: f in m <==> f in files && f.number in named
  {
    if files == [] then []
    else
      var rest, f := Matching(files[..|files| - 1], named), files[|files| - 1];
      assert files == files[..|files| - 1] + [f];
      if f.number in named then rest + [f] else rest
  }

  lemma SortedSnoc(files: seq<File>, f: File)
    requires SortedLevel(files) && f.smallest <= f.largest
    requires forall i :: 0 <= i < |files| ==> files[i].largest <= f.smallest
    ensures SortedLevel(files + [f])
  {
  }

  lemma EarlierFile(files: seq<File>, n: nat, f: File)
    requires n < |files| && f in files[..n]
    ensures SortedLevel(files) ==> f.largest <= files[n].smallest
    ensures NoTwice(files) ==> f.number != files[n].number
  {
    var k :| 0 <= k < n && files[..n][k] == f;
    assert files[k] == f;
  }

  /** What two different files of a level have in common carries over to the matching ones. */
  lemma {:induction false} MatchingSorted(files: seq<File>, named: set<nat>)
    requires SortedLevel(files)
    ensures SortedLevel(Matching(files, named))
  {
    if files != [] {
      var n := |files| - 1;
      MatchingSorted(files[..n], named);
      var rest := Matching(files[..n], named);
      forall i | 0 <= i < |rest| ensures rest[i].largest <= files[n].smallest {
        EarlierFile(files, n, rest[i]);
      }
      assert files[n].smallest <= files[n].largest;
      SortedSnoc(rest, files[n]);
    }
  }

  lemma {:induction false} MatchingNoTwice(files: seq<File>, named: set<nat>)
    requires NoTwice(files)
    ensures NoTwice(Matching(files, named))
  {
    if files != [] {
      var n := |files| - 1;
      MatchingNoTwice(files[..n], named);
      var rest := Matching(files[..n], named);
      forall i | 0 <= i < |rest| ensures rest[i].number != files[n].number {
        EarlierFile(files, n, rest[i]);
      }
    }
  }

  method MatchLevel(files: seq<File>, named: set<nat>) returns (matched: seq<File>)
    ensures matched == Matching(files, named)
  {
    matched := [];
    for i := 0 to |files|
      invariant matched == Matching(files[..i], named)
    {
      assert files[..i + 1][..i] == files[..i];
      if files[i].number in named {
        matched := matched + [files[i]];
      }
    }
    assert files[..|files|] == files;
  }

  /** The named files of every level, and the first and the last level that has one. */
  method MatchAll(levels: seq<seq<File>>, named: set<nat>) returns (matched: seq<seq<File>>, first: int, last: int)
    ensures |matched| == |levels| && forall k :: 0 <= k < |levels| ==> matched[k] == Matching(levels[k], named)
    ensures -1 <= first <= last < |levels| && (first == -1 <==> last == -1)
    ensures forall k :: 0 <= k < |levels| && matched[k] != [] ==> 0 <= first <= k <= last
    ensures first >= 0 ==> matched[first] != [] && matched[last] != []
  {
    hide Matching;
    matched, first, last := [], -1, -1;
    for l := 0 to |levels|
      invariant |matched| == l && forall k :: 0 <= k < l ==> matched[k] == Matching(levels[k], named)
      invariant -1 <= first <= last < l && (first == -1 <==> last == -1)
      invariant forall k :: 0 <= k < l && matched[k] != [] ==> 0 <= first <= k <= last
      invariant first >= 0 ==> matched[first] != [] && matched[last] != []
    {
      var files := MatchLevel(levels[l], named);
      matched := matched + [files];
      if files != [] {
        last := l;
        if first == -1 {
          first := l;
        }
      }
    }
  }

  predicate InputAt(inputs: seq<InputFiles>, i: int, l: nat)
  {
    0 <= i < |inputs| && inputs[i].level == l
  }

  /** The named files by level, from the first level that has one to the last. */
  method GetCompactionInputsFromFileNumbers(levels: seq<seq<File>>, named: set<nat>) returns (inputs: seq<InputFiles>)
    ensures forall i :: 0 <= i < |inputs| ==>
              inputs[i].level < |levels| && inputs[i].files == Matching(levels[inputs[i].level], named)
    ensures forall i, j :: 0 <= i < j < |inputs| ==> inputs[i].level < inputs[j].level
    ensures inputs != [] ==> inputs[0].files != [] && inputs[|inputs| - 1].files != []
    ensures forall l :: 0 <= l < |levels| && Matching(levels[l], named) != [] ==> exists i :: InputAt(inputs, i, l)
  {
    hide Matching;
    var matched, first, last := MatchAll(levels, named);
    inputs := [];
    if first < 0 {
      return;
    }
    for level := first to last + 1
      invariant |inputs| == level - first
      invariant forall i :: 0 <= i < |inputs| ==> inputs[i].level == first + i
      invariant forall i :: 0 <= i < |inputs| ==> inputs[i].files == Matching(levels[inputs[i].level], named)
      invariant inputs != [] ==> inputs[0].files != []
    {
      inputs := inputs + [InputFiles(level, matched[level])];
    }
    forall l | 0 <= l < |levels| && Matching(levels[l], named) != [] ensures exists i :: InputAt(inputs, i, l) {
      assert InputAt(inputs, l - first, l);
    }
  }
}
