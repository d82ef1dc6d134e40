/** Choosing the input files of a compaction so that no user key is torn apart. */
module CleanCuts {
  import opened CompactionFiles

  // ----- ranges of inputs

  method GetRange(inputs: InputFiles) returns (r: Range)
    requires inputs.files != [] && (inputs.level > 0 ==> SortedLevel(inputs.files))
    ensures r == Hull(inputs.files)
  {
    var files := inputs.files;
    if inputs.level == 0 {
      r := Span(files[0]);
      for i := 1 to |files|
        invariant r == Hull(files[..i])
      {
        assert files[..i + 1][..i] == files[..i];
        if files[i].smallest < r.lo {
          r := r.(lo := files[i].smallest);
        }
        if files[i].largest > r.hi {
          r := r.(hi := files[i].largest);
        }
      }
      assert files[..|files|] == files;
    } else {
      SortedHull(files);
      r := Range(files[0].smallest, files[|files| - 1].largest);
    }
  }

  method GetRangeOfTwo(a: InputFiles, b: InputFiles) returns (r: Range)
    requires a.files != [] || b.files != []
    requires (a.level > 0 ==> SortedLevel(a.files)) && (b.level > 0 ==> SortedLevel(b.files))
    ensures r == Hull(a.files + b.files)
  {
    if a.files == [] {
      assert a.files + b.files == b.files;
      r := GetRange(b);
    } else if b.files == [] {
      assert a.files + b.files == a.files;
      r := GetRange(a);
    } else {
      var ra := GetRange(a);
      var rb := GetRange(b);
      HullJoin(a.files, b.files);
      r := Range(if ra.lo < rb.lo then ra.lo else rb.lo, if ra.hi < rb.hi then rb.hi else ra.hi);
    }
  }

  function AllFiles(inputs: seq<InputFiles>): seq<File>
  {
    if inputs == [] then [] else AllFiles(inputs[..|inputs| - 1]) + inputs[|inputs| - 1].files
  }

  lemma {:induction false} AllFilesHas(inputs: seq<InputFiles>, f: File)
    ensures f in AllFiles(inputs) <==> exists i :: 0 <= i < |inputs| && f in inputs[i].files
  {
    if inputs != [] {
      var n := |inputs| - 1;
      AllFilesHas(inputs[..n], f);
      if i :| 0 <= i < n && f in inputs[..n][i].files {
        assert f in inputs[i].files;
      }
      if i :| 0 <= i < n && f in inputs[i].files {
        assert f in inputs[..n][i].files;
      }
    }
  }

  predicate Ordered(inputs: seq<InputFiles>)
  {
    forall i :: 0 <= i < |inputs| && inputs[i].level > 0 ==> SortedLevel(inputs[i].files)
  }

  lemma AllFilesStep(inputs: seq<InputFiles>, i: nat)
    requires i < |inputs|
    ensures AllFiles(inputs[..i + 1]) == AllFiles(inputs[..i]) + inputs[i].files
  {
    assert inputs[..i + 1][..i] == inputs[..i];
  }

  lemma NoFiles(inputs: seq<InputFiles>)
    ensures AllFiles(inputs[..0]) == []
  {
  }

  /** GetRange over all levels, for inputs that are not all empty. */
  method GetRangeOfAll(inputs: seq<InputFiles>) returns (r: Range)
    requires Ordered(inputs) && AllFiles(inputs) != []
    ensures r == Hull(AllFiles(inputs))
  {
    hide AllFiles, Hull;
    r := Range(0, 0);
    var initialized := false;
    NoFiles(inputs);
    for i := 0 to |inputs|
      invariant initialized <==> AllFiles(inputs[..i]) != []
      invariant initialized ==> r == Hull(AllFiles(inputs[..i]))
    {
      AllFilesStep(inputs, i);
      if inputs[i].files != [] {
        var current := GetRange(inputs[i]);
        if !initialized {
          assert [] + inputs[i].files == inputs[i].files;
          r, initialized := current, true;
        } else {
          HullJoin(AllFiles(inputs[..i]), inputs[i].files);
          r := Range(if current.lo < r.lo then current.lo else r.lo, if current.hi > r.hi then current.hi else r.hi);
        }
      } else {
        assert AllFiles(inputs[..i]) + [] == AllFiles(inputs[..i]);
      }
    }
    assert inputs[..|inputs|] == inputs;
  }

  method AddEach(files: seq<File>, initialized: bool, r0: Range, ghost before: seq<File>) returns (r: Range)
    requires files != [] && (initialized <==> before != []) && (initialized ==> r0 == Hull(before))
    ensures r == Hull(before + files)
  {
    var started := initialized;
    r := r0;
    assert before + files[..0] == before;
    for j := 0 to |files|
      invariant started <==> before + files[..j] != []
      invariant started ==> r == Hull(before + files[..j])
    {
      assert (before + files[..j + 1])[..|before| + j] == before + files[..j];
      if !started || files[j].smallest < r.lo {
        r := r.(lo := files[j].smallest);
      }
      if !started || files[j].largest > r.hi {
        r := r.(hi := files[j].largest);
      }
      started := true;
    }
    assert files[..|files|] == files;
  }

  method AddEnds(files: seq<File>, initialized: bool, r0: Range, ghost before: seq<File>) returns (r: Range)
    requires files != [] && SortedLevel(files)
    requires (initialized <==> before != []) && (initialized ==> r0 == Hull(before))
    ensures r == Hull(before + files)
  {
    hide Hull;
    SortedHull(files);
    if initialized {
      HullJoin(before, files);
    } else {
      assert before + files == files;
    }
    r := r0;
    if !initialized || files[0].smallest < r.lo {
      r := r.(lo := files[0].smallest);
    }
    if !initialized || files[|files| - 1].largest > r.hi {
      r := r.(hi := files[|files| - 1].largest);
    }
  }

  /** Compaction::GetBoundaryKeys: one pass over level 0, first and last file below. */
  method GetBoundaryKeys(inputs: seq<InputFiles>) returns (r: Range)
    requires Ordered(inputs) && AllFiles(inputs) != []
    ensures r == Hull(AllFiles(inputs))
  {
    hide AllFiles, Hull;
    r := Range(0, 0);
    var initialized := false;
    NoFiles(inputs);
    for i := 0 to |inputs|
      invariant initialized <==> AllFiles(inputs[..i]) != []
      invariant initialized ==> r == Hull(AllFiles(inputs[..i]))
    {
      AllFilesStep(inputs, i);
      if inputs[i].files != [] {
        if inputs[i].level == 0 {
          r := AddEach(inputs[i].files, initialized, r, AllFiles(inputs[..i]));
        } else {
          r := AddEnds(inputs[i].files, initialized, r, AllFiles(inputs[..i]));
        }
        initialized := true;
      } else {
        assert AllFiles(inputs[..i]) + [] == AllFiles(inputs[..i]);
      }
    }
    assert inputs[..|inputs|] == inputs;
  }

  // ----- clean cuts

  /** No user key is on both sides of the cut before file `a`, or after file `b - 1`. */
  predicate CleanLow(files: seq<File>, a: nat)
    requires a < |files|
  {
    a == 0 || files[a - 1].largest < files[a].smallest
  }

  predicate CleanHigh(files: seq<File>, b: nat)
    requires 0 < b <= |files|
  {
    b == |files| || files[b - 1].largest < files[b].smallest
  }

  predicate CleanCut(files: seq<File>, a: nat, b: nat)
  {
    a < b <= |files| && CleanLow(files, a) && CleanHigh(files, b)
  }

  function LeastLow(files: seq<File>, a: nat): (x: nat)
    requires a < |files|
    ensures x <= a && CleanLow(files, x)
  {
    if CleanLow(files, a) then a else LeastLow(files, a - 1)
  }

  function LeastHigh(files: seq<File>, b: nat): (y: nat)
    requires 0 < b <= |files|
    ensures b <= y <= |files| && CleanHigh(files, y)
    decreases |files| - b
  {
    if CleanHigh(files, b) then b else LeastHigh(files, b + 1)
  }

  /** Every clean cut around files `a` to `b - 1` contains the least one. */
  lemma {:induction false} LeastCut(files: seq<File>, a: nat, b: nat, x: nat, y: nat)
    requires a < b <= |files| && CleanCut(files, x, y) && x <= a && b <= y
    ensures x <= LeastLow(files, a) && LeastHigh(files, b) <= y
    decreases a - x + y - b
  {
    if x < a && !CleanLow(files, a) {
      LeastCut(files, a - 1, b, x, y);
    }
    if b < y && !CleanHigh(files, b) {
      LeastCut(files, a, b + 1, x, y);
    }
  }

  /** Walking over files that share a user key does not change the least cut. */
  lemma {:induction false} SameLeastLow(files: seq<File>, x: nat, a: nat)
    requires SortedLevel(files) && x <= a < |files| && files[a].smallest <= files[x].largest
    ensures LeastLow(files, x) == LeastLow(files, a)
    decreases a - x
  {
    if x < a {
      assert x + 1 < a ==> files[x + 1].largest <= files[a].smallest;
      assert files[a].smallest <= files[x + 1].largest;
      assert !CleanLow(files, x + 1);
      SameLeastLow(files, x + 1, a);
    }
  }

  lemma {:induction false} SameLeastHigh(files: seq<File>, b: nat, y: nat)
    requires SortedLevel(files) && 0 < b <= y <= |files| && files[y - 1].smallest <= files[b - 1].largest
    ensures LeastHigh(files, b) == LeastHigh(files, y)
    decreases y - b
  {
    if b < y {
      assert b < y - 1 ==> files[b].largest <= files[y - 1].smallest;
      assert files[y - 1].smallest <= files[b].largest;
      assert !CleanHigh(files, b);
      SameLeastHigh(files, b + 1, y);
    }
  }

  predicate AnyBusy(files: seq<File>, busy: set<nat>)
  {
    exists i :: 0 <= i < |files| && files[i].number in busy
  }

  method AreFilesInCompaction(files: seq<File>, busy: set<nat>) returns (any: bool)
    ensures any <==> AnyBusy(files, busy)
  {
    for i := 0 to |files|
      invariant forall k :: 0 <= k < i ==> files[k].number !in busy
    {
      if files[i].number in busy {
        return true;
      }
    }
    return false;
  }

  /** One round: the files that meet the range of files `a` to `b - 1`. */
  lemma OneRound(files: seq<File>, a: nat, b: nat)
    requires SortedLevel(files) && a < b <= |files|
    ensures var x, y := Low(files, files[a].smallest), High(files, files[b - 1].largest);
            && x <= a && b <= y <= |files|
            && LeastLow(files, x) == LeastLow(files, a) && LeastHigh(files, y) == LeastHigh(files, b)
            && (x == a && y == b ==> CleanCut(files, a, b))
  {
    hide Low, High, LeastLow, LeastHigh;
    var x, y := Low(files, files[a].smallest), High(files, files[b - 1].largest);
    assert files[a].smallest <= files[a].largest && files[b - 1].smallest <= files[b - 1].largest;
    SameLeastLow(files, x, a);
    SameLeastHigh(files, b, y);
  }

  lemma SortedSlice(files: seq<File>, x: nat, y: nat)
    requires SortedLevel(files) && x <= y <= |files|
    ensures SortedLevel(files[x..y])
  {
  }

  lemma SliceHull(files: seq<File>, x: nat, y: nat)
    requires SortedLevel(files) && x < y <= |files|
    ensures Hull(files[x..y]) == Range(files[x].smallest, files[y - 1].largest)
  {
    SortedSlice(files, x, y);
    SortedHull(files[x..y]);
  }

  method ExpandOnce(level: nat, files: seq<File>, inputs: seq<File>, ghost x: nat, ghost y: nat)
    returns (expanded: seq<File>, ghost x': nat, ghost y': nat)
    requires level > 0 && SortedLevel(files) && x < y <= |files| && inputs == files[x..y]
    ensures x' <= x && y <= y' <= |files| && expanded == files[x'..y']
    ensures LeastLow(files, x') == LeastLow(files, x) && LeastHigh(files, y') == LeastHigh(files, y)
    ensures |expanded| <= |inputs| ==> CleanCut(files, x', y')
  {
    hide Low, High, LeastLow, LeastHigh, Hull;
    OneRound(files, x, y);
    SortedSlice(files, x, y);
    SliceHull(files, x, y);
    var r := GetRange(InputFiles(level, inputs));
    expanded := Overlapping(files, r);
    x', y' := Low(files, r.lo), High(files, r.hi);
  }

  lemma AlreadyClean(files: seq<File>, x: nat, y: nat)
    requires CleanCut(files, x, y)
    ensures LeastLow(files, x) == x && LeastHigh(files, y) == y
  {
  }

  /** Expands a run of files of a sorted level until both ends are clean cuts. */
  method ExpandInputsToCleanCut(levels: seq<seq<File>>, busy: set<nat>, inputs: InputFiles, ghost a: nat, ghost b: nat)
    returns (ok: bool, expanded: InputFiles)
    requires inputs.level < |levels| && inputs.files != []
    requires inputs.level > 0 ==>
               SortedLevel(levels[inputs.level]) && a < b <= |levels[inputs.level]|
               && inputs.files == levels[inputs.level][a..b]
    ensures inputs.level == 0 ==> ok && expanded == inputs
    // the least clean cut around the inputs, refused if one of its files is taken
    ensures inputs.level > 0 ==>
              && expanded == inputs.(files := levels[inputs.level][LeastLow(levels[inputs.level], a)..
                                                                   LeastHigh(levels[inputs.level], b)])
              && (ok <==> !AnyBusy(expanded.files, busy))
  {
    hide LeastLow, LeastHigh, SortedLevel, AnyBusy;
    expanded := inputs;
    if inputs.level == 0 {
      return true, expanded;
    }
    var files := levels[inputs.level];
    ghost var x: nat, y: nat := a, b;
    var more := true;
    while more
      invariant x < y <= |files| && expanded == inputs.(files := files[x..y])
      invariant LeastLow(files, x) == LeastLow(files, a) && LeastHigh(files, y) == LeastHigh(files, b)
      invariant !more ==> CleanCut(files, x, y)
      decreases |files| - |expanded.files|, more
    {
      var next;
      next, x, y := ExpandOnce(inputs.level, files, expanded.files, x, y);
      more := |next| > |expanded.files|;
      expanded := expanded.(files := next);
    }
    AlreadyClean(files, x, y);
    var any := AreFilesInCompaction(expanded.files, busy);
    ok := !any;
  }

  // ----- GetCleanInputsWithinInterval: the most files inside a range that are a clean cut

  function CleanFrom(files: seq<File>, a: nat, lo: nat): (x: nat)
    requires a <= |files|
    ensures a <= x <= |files|
    ensures x < |files| ==> lo <= files[x].smallest && CleanLow(files, x)
    ensures forall i :: a <= i < x ==> !(lo <= files[i].smallest && CleanLow(files, i))
    decreases |files| - a
  {
    if a == |files| || (lo <= files[a].smallest && CleanLow(files, a)) then a else CleanFrom(files, a + 1, lo)
  }

  function CleanTo(files: seq<File>, b: nat, hi: nat): (y: nat)
    requires b <= |files|
    ensures y <= b
    ensures y > 0 ==> files[y - 1].largest <= hi && CleanHigh(files, y)
    ensures forall i :: y < i <= b ==> !(files[i - 1].largest <= hi && CleanHigh(files, i))
  {
    if b == 0 || (files[b - 1].largest <= hi && CleanHigh(files, b)) then b else CleanTo(files, b - 1, hi)
  }

  function CleanWithin(files: seq<File>, r: Range): seq<File>
  {
    var x, y := CleanFrom(files, Low(files, r.lo), r.lo), CleanTo(files, High(files, r.hi), r.hi);
    if x < y then files[x..y] else []
  }

  /** It contains every clean cut inside the range. */
  lemma WithinContains(files: seq<File>, r: Range, a: nat, b: nat)
    requires SortedLevel(files) && CleanCut(files, a, b) && r.lo <= files[a].smallest && files[b - 1].largest <= r.hi
    ensures var x, y := CleanFrom(files, Low(files, r.lo), r.lo), CleanTo(files, High(files, r.hi), r.hi);
            x <= a && b <= y && CleanCut(files, x, y) && CleanWithin(files, r) == files[x..y]
  {
    hide Low, High, CleanFrom, CleanTo;
    assert files[a].smallest <= files[a].largest && files[b - 1].smallest <= files[b - 1].largest;
  }

  // ----- the output level's files

  predicate Covers(files: seq<File>, chosen: seq<File>, r: Range)
  {
    forall g :: g in files && Meets(Span(g), r) ==> g in chosen
  }

  lemma CoversLess(files: seq<File>, chosen: seq<File>, r: Range, r': Range)
    requires Covers(files, chosen, r) && Within(r', r)
    ensures Covers(files, chosen, r')
  {
  }

  lemma NearCut(files: seq<File>, r: Range, x: nat, y: nat, c: nat, d: nat, i: nat)
    requires SortedLevel(files) && CleanCut(files, c, d) && c <= x < y <= d && i < |files|
    requires forall k :: 0 <= k < |files| ==> (Meets(Span(files[k]), r) <==> x <= k < y)
    ensures Meets(Span(files[i]), Join(r, Range(files[c].smallest, files[d - 1].largest))) ==> c <= i < d
  {
    assert Meets(Span(files[x]), r);
    if i < c {
      assert files[i].largest < files[c].smallest <= files[x].largest;
      assert !Meets(Span(files[i]), r);
    }
    if i >= d {
      assert files[i].smallest > files[d - 1].largest >= files[x].smallest;
      assert !Meets(Span(files[i]), r);
    }
  }

  /** The least clean cut around the files that meet `r` holds all files that meet `r` or the cut itself. */
  lemma CutCovers(files: seq<File>, r: Range)
    requires SortedLevel(files) && Overlapping(files, r) != []
    ensures var c, d := LeastLow(files, Low(files, r.lo)), LeastHigh(files, High(files, r.hi));
            CleanCut(files, c, d) && Covers(files, files[c..d], Join(r, Hull(files[c..d])))
  {
    hide Low, High, LeastLow, LeastHigh, Hull, Join, Meets, SortedLevel;
    var x, y := Low(files, r.lo), High(files, r.hi);
    var c, d := LeastLow(files, x), LeastHigh(files, y);
    OverlappingExact(files, r);
    SliceHull(files, c, d);
    forall g | g in files && Meets(Span(g), Join(r, Hull(files[c..d]))) ensures g in files[c..d] {
      var i :| 0 <= i < |files| && files[i] == g;
      NearCut(files, r, x, y, c, d, i);
      assert g == files[c..d][i - c];
    }
  }

  // ----- SetupOtherInputs

  /** Files of one level: any of level 0, or a clean cut of a deeper one. */
  predicate Chosen(levels: seq<seq<File>>, inputs: InputFiles, a: nat, b: nat)
  {
    && inputs.level < |levels| && inputs.files != [] && NoTwice(inputs.files)
    && (forall f :: f in inputs.files ==> f in levels[inputs.level])
    && (inputs.level > 0 ==>
          CleanCut(levels[inputs.level], a, b) && inputs.files == levels[inputs.level][a..b])
  }

  predicate Contains(big: seq<File>, small: seq<File>)
  {
    forall f :: f in small ==> f in big
  }

  function TotalSize(files: seq<File>): nat
  {
    if files == [] then 0 else TotalSize(files[..|files| - 1]) + files[|files| - 1].size
  }

  /** GetOverlappingInputs on either kind of level. */
  function OverlappingInputs(level: nat, files: seq<File>, r: Range): seq<File>
  {
    if level == 0 then OverlappingL0(files, r) else Overlapping(files, r)
  }

  /** The least clean cut around the files that meet a range. */
  function CutAround(files: seq<File>, r: Range): seq<File>
    requires SortedLevel(files)
  {
    var x, y := Low(files, r.lo), High(files, r.hi);
    if x < y then files[LeastLow(files, x)..LeastHigh(files, y)] else []
  }

  lemma BusyGrows(files: seq<File>, x: nat, y: nat, c: nat, d: nat, busy: set<nat>)
    requires c <= x <= y <= d <= |files| && AnyBusy(files[x..y], busy)
    ensures AnyBusy(files[c..d], busy)
  {
    var i :| 0 <= i < y - x && files[x..y][i].number in busy;
    assert files[c..d][i + x - c] == files[x..y][i];
  }

  /** The output level's files for a range. */
  method ChooseOutputs(levels: seq<seq<File>>, busy: set<nat>, level: nat, r: Range)
    returns (ok: bool, outputs: InputFiles, ghost c: nat, ghost d: nat)
    requires LevelsOk(levels) && 0 < level < |levels| && SortedLevel(levels[level])
    ensures ok <==> !AnyBusy(CutAround(levels[level], r), busy)
    ensures ok ==> outputs == InputFiles(level, CutAround(levels[level], r))
    ensures ok && outputs.files != [] ==> Chosen(levels, outputs, c, d)
  {
    hide Low, High, LeastLow, LeastHigh, SortedLevel, Hull, Meets, LevelsOk, NoTwice;
    var files := levels[level];
    outputs := InputFiles(level, Overlapping(files, r));
    c, d := 0, 0;
    var any := AreFilesInCompaction(outputs.files, busy);
    ok := !any;
    if outputs.files != [] {
      ghost var x, y := Low(files, r.lo), High(files, r.hi);
      c, d := LeastLow(files, x), LeastHigh(files, y);
      if any {
        BusyGrows(files, x, y, c, d, busy);
      } else {
        ok, outputs := ExpandInputsToCleanCut(levels, busy, outputs, x, y);
        LevelNoTwice(levels, level, c, d);
      }
    }
  }

  /** What SetupOtherInputs has chosen: the output level's files hold all that meet the inputs' range. */
  predicate Complete(levels: seq<seq<File>>, busy: set<nat>, inputs: InputFiles, outputs: InputFiles)
    requires outputs.level < |levels|
  {
    && !AnyBusy(outputs.files, busy)
    && (inputs.files != [] ==> Covers(levels[outputs.level], outputs.files, Hull(inputs.files)))
  }

  lemma LevelSorted(levels: seq<seq<File>>, l: nat)
    requires LevelsOk(levels) && 0 < l < |levels|
    ensures SortedLevel(levels[l])
  {
  }

  method RangeOf(levels: seq<seq<File>>, inputs: InputFiles, ghost a: nat, ghost b: nat) returns (r: Range)
    requires LevelsOk(levels) && Chosen(levels, inputs, a, b)
    ensures r == Hull(inputs.files)
  {
    if inputs.level > 0 {
      SortedSlice(levels[inputs.level], a, b);
    }
    r := GetRange(inputs);
  }

  lemma TopMeets(files: seq<File>, inputs: seq<File>, all: Range)
    requires inputs != [] && (forall f :: f in inputs ==> f in files) && Within(Hull(inputs), all)
    requires forall f :: f in files ==> f.smallest <= f.largest
    ensures Contains(OverlappingL0(files, all), inputs) && OverlappingL0(files, all) != []
  {
    hide Hull, ClosedRange, Meeting;
    forall f | f in inputs ensures f in OverlappingL0(files, all) {
      var i :| 0 <= i < |inputs| && inputs[i] == f;
      HullCovers(inputs, i);
      assert f in files && Meets(Span(f), all);
    }
    assert inputs[0] in OverlappingL0(files, all);
  }

  lemma SliceContains(files: seq<File>, x: nat, y: nat, a: nat, b: nat)
    requires x <= a <= b <= y <= |files|
    ensures Contains(files[x..y], files[a..b])
  {
    forall f | f in files[a..b] ensures f in files[x..y] {
      var i :| 0 <= i < b - a && files[a..b][i] == f;
      assert files[x..y][i + a - x] == f;
    }
  }

  lemma DeeperMeets(files: seq<File>, a: nat, b: nat, all: Range)
    requires SortedLevel(files) && a < b <= |files| && Within(Hull(files[a..b]), all)
    ensures var x, y := Low(files, all.lo), High(files, all.hi);
            x <= a && b <= y <= |files| && Overlapping(files, all) == files[x..y] && Contains(files[x..y], files[a..b])
  {
    hide Low, High, Hull;
    SliceHull(files, a, b);
    OverlappingExact(files, all);
    assert files[a].smallest <= files[a].largest && files[b - 1].smallest <= files[b - 1].largest;
    assert a < b - 1 ==> files[a].largest <= files[b - 1].smallest;
    assert Meets(Span(files[a]), all) && Meets(Span(files[b - 1]), all);
    SliceContains(files, Low(files, all.lo), High(files, all.hi), a, b);
  }

  /** The start level's files that meet a range around the inputs include them. */
  method MeetingStart(levels: seq<seq<File>>, inputs: InputFiles, all: Range, ghost a: nat, ghost b: nat)
    returns (start: InputFiles, ghost x: nat, ghost y: nat)
    requires LevelsOk(levels) && Chosen(levels, inputs, a, b) && Within(Hull(inputs.files), all)
    ensures start == InputFiles(inputs.level, OverlappingInputs(inputs.level, levels[inputs.level], all))
    ensures Contains(start.files, inputs.files) && start.files != []
    ensures inputs.level == 0 ==> NoTwice(start.files) && forall f :: f in start.files ==> f in levels[0]
    ensures inputs.level > 0 ==>
              x <= a < b <= y <= |levels[inputs.level]| && start.files == levels[inputs.level][x..y]
    ensures x == Low(levels[inputs.level], all.lo) && y == High(levels[inputs.level], all.hi)
  {
    hide Low, High, Hull, ClosedRange, Meeting, NoTwice, Overlapping;
    var files := levels[inputs.level];
    start := InputFiles(inputs.level, OverlappingInputs(inputs.level, files, all));
    x, y := Low(files, all.lo), High(files, all.hi);
    if inputs.level == 0 {
      TopMeets(files, inputs.files, all);
      assert files[0..|files|] == files;
      LevelNoTwice(levels, 0, 0, |files|);
      MeetingNoTwice(files, ClosedRange(files, all));
    } else {
      LevelSorted(levels, inputs.level);
      DeeperMeets(files, a, b, all);
    }
  }

  method CleanStart(levels: seq<seq<File>>, busy: set<nat>, start: InputFiles, ghost x: nat, ghost y: nat)
    returns (ok: bool, expanded: InputFiles, ghost a: nat, ghost b: nat)
    requires LevelsOk(levels) && start.level < |levels| && start.files != []
    requires start.level == 0 ==> NoTwice(start.files) && forall f :: f in start.files ==> f in levels[0]
    requires start.level > 0 ==> x < y <= |levels[start.level]| && start.files == levels[start.level][x..y]
    ensures expanded.level == start.level && Chosen(levels, expanded, a, b) && Contains(expanded.files, start.files)
    ensures start.level == 0 ==> expanded == start && ok
    ensures start.level > 0 ==>
              && expanded.files == levels[start.level][LeastLow(levels[start.level], x)..
                                                       LeastHigh(levels[start.level], y)]
              && (ok <==> !AnyBusy(expanded.files, busy))
  {
    hide LeastLow, LeastHigh;
    ok, expanded := ExpandInputsToCleanCut(levels, busy, start, x, y);
    a, b := 0, 0;
    if start.level > 0 {
      a, b := LeastLow(levels[start.level], x), LeastHigh(levels[start.level], y);
      SliceContains(levels[start.level], a, b, x, y);
      LevelNoTwice(levels, start.level, a, b);
    }
  }

  lemma LowHighMono(files: seq<File>, r: Range, wide: Range)
    requires Within(r, wide)
    ensures Low(files, wide.lo) <= Low(files, r.lo) && High(files, r.hi) <= High(files, wide.hi)
  {
  }

  /** If a wider range needs as many output files, it needs the same ones. */
  lemma SameCut(files: seq<File>, r: Range, wide: Range)
    requires SortedLevel(files) && Within(r, wide) && CutAround(files, r) != []
    requires |CutAround(files, wide)| == |CutAround(files, r)|
    ensures Covers(files, CutAround(files, r), wide)
  {
    hide Low, High, LeastLow, LeastHigh, Hull, Meets, SortedLevel;
    var x, y, x', y' := Low(files, r.lo), High(files, r.hi), Low(files, wide.lo), High(files, wide.hi);
    LowHighMono(files, r, wide);
    LeastCut(files, x, y, LeastLow(files, x'), LeastHigh(files, y'));
    CutCovers(files, wide);
    CoversLess(files, CutAround(files, wide), Join(wide, Hull(CutAround(files, wide))), wide);
  }

  lemma StillMeet(files: seq<File>, r: Range, wide: Range)
    requires SortedLevel(files) && Within(r, wide) && CutAround(files, r) != []
    ensures Overlapping(files, wide) != []
  {
    hide Low, High, LeastLow, LeastHigh, SortedLevel;
    LowHighMono(files, r, wide);
  }

  lemma StartClosed(levels: seq<seq<File>>, r: Range)
    requires 0 < |levels| && OverlappingL0(levels[0], r) != []
    ensures Covers(levels[0], OverlappingL0(levels[0], r), Hull(OverlappingL0(levels[0], r)))
  {
    hide Hull, OverlappingL0;
    forall f | f in levels[0] && Meets(Span(f), Hull(OverlappingL0(levels[0], r)))
      ensures f in OverlappingL0(levels[0], r)
    {
      L0Closed(levels[0], r, f);
    }
  }

  /** The start level's files that meet a range, with those that share a user key with them. */
  function MeetingCut(level: nat, files: seq<File>, r: Range): seq<File>
    requires level > 0 ==> SortedLevel(files)
  {
    if level == 0 then OverlappingL0(files, r) else CutAround(files, r)
  }

  /** Taking these as inputs instead is worth it: more files, all free, within the limit, and the output level has
      as many files for them. */
  predicate OverlapFits(levels: seq<seq<File>>, busy: set<nat>, inputs: InputFiles, outputLevel: nat, all: Range,
                        limit: nat)
    requires LevelsOk(levels) && inputs.level < outputLevel < |levels| && inputs.files != []
  {
    var files, outputs := levels[inputs.level], CutAround(levels[outputLevel], Hull(inputs.files));
    var more := MeetingCut(inputs.level, files, all);
    && |more| > |inputs.files| && !AnyBusy(more, busy)
    && TotalSize(outputs) + TotalSize(OverlappingInputs(inputs.level, files, all)) < limit
    && !AnyBusy(CutAround(levels[outputLevel], Hull(more)), busy)
    && |CutAround(levels[outputLevel], Hull(more))| == |outputs|
  }

  /** So is taking the files strictly inside the range. */
  predicate WithinFits(levels: seq<seq<File>>, busy: set<nat>, inputs: InputFiles, outputLevel: nat, all: Range,
                       limit: nat)
    requires LevelsOk(levels) && inputs.level < outputLevel < |levels| && inputs.files != []
  {
    var more := CleanWithin(levels[inputs.level], all);
    && inputs.level > 0 && |more| > |inputs.files| && !AnyBusy(more, busy)
    && TotalSize(CutAround(levels[outputLevel], Hull(inputs.files))) + TotalSize(more) < limit
  }

  /** The output level's files for the inputs. */
  function OutputsFor(levels: seq<seq<File>>, inputs: InputFiles, outputLevel: nat): seq<File>
    requires LevelsOk(levels) && inputs.level <= outputLevel < |levels| && inputs.files != []
  {
    if inputs.level == outputLevel then [] else CutAround(levels[outputLevel], Hull(inputs.files))
  }

  /** The inputs, or as many more as cost no more output files: which meet the joint range with the output files,
      or else which lie inside it. */
  function Expanded(levels: seq<seq<File>>, busy: set<nat>, inputs: InputFiles, outputLevel: nat, limit: nat)
    : (files: seq<File>)
    requires LevelsOk(levels) && inputs.level <= outputLevel < |levels| && inputs.files != []
    ensures |files| >= |inputs.files|
  {
    var outputs := OutputsFor(levels, inputs, outputLevel);
    if outputs == [] then inputs.files
    else
      var all := Join(Hull(inputs.files), Hull(outputs));
      if OverlapFits(levels, busy, inputs, outputLevel, all, limit)
      then MeetingCut(inputs.level, levels[inputs.level], all)
      else if WithinFits(levels, busy, inputs, outputLevel, all, limit) then CleanWithin(levels[inputs.level], all)
      else inputs.files
  }

  /** The start level's candidates, and the size of those that meet the range. */
  method MeetingInputs(levels: seq<seq<File>>, busy: set<nat>, inputs: InputFiles, all: Range, ghost a: nat,
                       ghost b: nat)
    returns (clean: bool, expanded: InputFiles, size: nat, ghost a': nat, ghost b': nat)
    requires LevelsOk(levels) && Chosen(levels, inputs, a, b) && Within(Hull(inputs.files), all)
    ensures expanded == InputFiles(inputs.level, MeetingCut(inputs.level, levels[inputs.level], all))
    ensures clean <==> inputs.level == 0 || !AnyBusy(expanded.files, busy)
    ensures size == TotalSize(OverlappingInputs(inputs.level, levels[inputs.level], all))
    ensures Chosen(levels, expanded, a', b') && Contains(expanded.files, inputs.files)
  {
    hide Low, High, LeastLow, LeastHigh, SortedLevel, Hull, LevelsOk, OverlappingL0, Overlapping, TotalSize, AnyBusy;
    if inputs.level > 0 {
      LevelSorted(levels, inputs.level);
    }
    var start;
    ghost var x, y;
    start, x, y := MeetingStart(levels, inputs, all, a, b);
    size := TotalSize(start.files);
    clean, expanded, a', b' := CleanStart(levels, busy, start, x, y);
  }

  /** First try: all files of the start level that meet the joint range, if that needs no more output files. */
  method ExpandByOverlap(levels: seq<seq<File>>, busy: set<nat>, inputs: InputFiles, outputs: InputFiles, all: Range,
                         limit: nat, ghost a: nat, ghost b: nat, ghost r: Range)
    returns (yes: bool, expanded: InputFiles, ghost a': nat, ghost b': nat)
    requires LevelsOk(levels) && Chosen(levels, inputs, a, b) && inputs.level < outputs.level < |levels|
    requires r == Hull(inputs.files) && outputs.files != [] && outputs.files == CutAround(levels[outputs.level], r)
    requires all == Join(r, Hull(outputs.files)) && !AnyBusy(outputs.files, busy)
    ensures yes <==> OverlapFits(levels, busy, inputs, outputs.level, all, limit)
    ensures yes ==> expanded == InputFiles(inputs.level, MeetingCut(inputs.level, levels[inputs.level], all))
    ensures yes ==> Chosen(levels, expanded, a', b')
    ensures yes ==> Contains(expanded.files, inputs.files) && !AnyBusy(expanded.files, busy)
    ensures yes ==> Complete(levels, busy, expanded, outputs)
    ensures yes && inputs.level == 0 ==> Covers(levels[0], expanded.files, Hull(expanded.files))
  {
    hide Low, High, LeastLow, LeastHigh, SortedLevel, Hull, Meets, LevelsOk, CutAround, OverlappingL0, Overlapping,
         TotalSize, Covers;
    var clean, size;
    clean, expanded, size, a', b' := MeetingInputs(levels, busy, inputs, all, a, b);
    yes := false;
    if clean && |expanded.files| > |inputs.files| && TotalSize(outputs.files) + size < limit {
      var any := AreFilesInCompaction(expanded.files, busy);
      if !any {
        var newRange := RangeOf(levels, expanded, a', b');
        HullGrows(inputs.files, expanded.files);
        LevelSorted(levels, outputs.level);
        StillMeet(levels[outputs.level], r, newRange);
        assert Overlapping(levels[outputs.level], newRange) != [];
        ghost var c, d;
        var ok, more;
        ok, more, c, d := ChooseOutputs(levels, busy, outputs.level, newRange);
        yes := ok && |more.files| == |outputs.files|;
        if yes {
          SameCut(levels[outputs.level], r, newRange);
          if inputs.level == 0 {
            StartClosed(levels, all);
          }
        }
      }
    }
  }

  lemma WithinStart(files: seq<File>, all: Range, a: nat, b: nat)
    requires SortedLevel(files) && CleanCut(files, a, b) && Within(Hull(files[a..b]), all)
    ensures var x, y := CleanFrom(files, Low(files, all.lo), all.lo), CleanTo(files, High(files, all.hi), all.hi);
            && CleanCut(files, x, y) && CleanWithin(files, all) == files[x..y]
            && Contains(files[x..y], files[a..b]) && Within(Hull(files[x..y]), all)
  {
    hide Low, High, Hull, SortedLevel, CleanFrom, CleanTo;
    var x, y := CleanFrom(files, Low(files, all.lo), all.lo), CleanTo(files, High(files, all.hi), all.hi);
    SliceHull(files, a, b);
    WithinContains(files, all, a, b);
    SliceContains(files, x, y, a, b);
    SliceHull(files, x, y);
  }

  lemma CutCoversAll(files: seq<File>, r: Range, all: Range)
    requires SortedLevel(files) && CutAround(files, r) != [] && all == Join(r, Hull(CutAround(files, r)))
    ensures Covers(files, CutAround(files, r), all)
  {
    hide Low, High, LeastLow, LeastHigh, SortedLevel, Hull, Meets;
    CutCovers(files, r);
  }

  /** Second try: the files strictly inside the joint range. */
  method ExpandWithin(levels: seq<seq<File>>, busy: set<nat>, inputs: InputFiles, outputs: InputFiles, all: Range,
                      limit: nat, ghost a: nat, ghost b: nat, ghost r: Range)
    returns (yes: bool, expanded: InputFiles, ghost a': nat, ghost b': nat)
    requires LevelsOk(levels) && Chosen(levels, inputs, a, b) && inputs.level < outputs.level < |levels|
    requires r == Hull(inputs.files) && outputs.files != [] && outputs.files == CutAround(levels[outputs.level], r)
    requires all == Join(r, Hull(outputs.files)) && !AnyBusy(outputs.files, busy)
    ensures yes <==> WithinFits(levels, busy, inputs, outputs.level, all, limit)
    ensures yes ==> expanded == InputFiles(inputs.level, CleanWithin(levels[inputs.level], all))
    ensures yes ==> Chosen(levels, expanded, a', b')
    ensures yes ==> Contains(expanded.files, inputs.files) && !AnyBusy(expanded.files, busy)
    ensures yes ==> Complete(levels, busy, expanded, outputs) && inputs.level > 0
  {
    hide Low, High, SortedLevel, Hull, Meets, CleanFrom, CleanTo, CleanWithin, CutAround, LevelsOk, AnyBusy;
    var files := levels[inputs.level];
    a', b' := 0, 0;
    // level 0 has no such files
    expanded := InputFiles(inputs.level, if inputs.level == 0 then [] else CleanWithin(files, all));
    yes := false;
    if |expanded.files| > |inputs.files| && TotalSize(outputs.files) + TotalSize(expanded.files) < limit {
      var any := AreFilesInCompaction(expanded.files, busy);
      yes := !any;
      if yes {
        LevelSorted(levels, inputs.level);
        LevelSorted(levels, outputs.level);
        a', b' := CleanFrom(files, Low(files, all.lo), all.lo), CleanTo(files, High(files, all.hi), all.hi);
        WithinStart(files, all, a, b);
        LevelNoTwice(levels, inputs.level, a', b');
        CutCoversAll(levels[outputs.level], r, all);
        CoversLess(levels[outputs.level], outputs.files, all, Hull(expanded.files));
      }
    }
  }

  lemma ChosenSorted(levels: seq<seq<File>>, inputs: InputFiles, a: nat, b: nat)
    requires LevelsOk(levels) && Chosen(levels, inputs, a, b)
    ensures inputs.files != [] && (inputs.level > 0 ==> SortedLevel(inputs.files))
  {
    if inputs.level > 0 {
      SortedSlice(levels[inputs.level], a, b);
    }
  }

  lemma ChosenCover(files: seq<File>, r: Range)
    requires SortedLevel(files)
    ensures Covers(files, CutAround(files, r), r)
  {
    hide Low, High, LeastLow, LeastHigh, Hull;
    OverlappingExact(files, r);
    if Overlapping(files, r) != [] {
      CutCovers(files, r);
      CoversLess(files, CutAround(files, r), Join(r, Hull(CutAround(files, r))), r);
    }
  }

  /** Chooses the output level's files for `inputs`, and more inputs if they cost no more output files. */
  method SetupOtherInputs(levels: seq<seq<File>>, busy: set<nat>, inputs: InputFiles, outputLevel: nat, limit: nat,
                          ghost a: nat, ghost b: nat)
    returns (ok: bool, chosen: InputFiles, outputs: InputFiles, ghost a': nat, ghost b': nat, ghost c: nat,
             ghost d: nat)
    requires LevelsOk(levels) && Chosen(levels, inputs, a, b) && inputs.level <= outputLevel < |levels|
    requires forall l :: inputs.level < l < outputLevel ==> levels[l] == []
    ensures ok ==> chosen.level == inputs.level && Chosen(levels, chosen, a', b')
    ensures ok ==> Contains(chosen.files, inputs.files) && outputs.level == outputLevel
    ensures ok && inputs.level == outputLevel ==> chosen == inputs && outputs.files == []
    ensures ok && inputs.level != outputLevel ==> Complete(levels, busy, chosen, outputs)
    ensures ok && outputs.files != [] ==> Chosen(levels, outputs, c, d)
    ensures ok && !AnyBusy(inputs.files, busy) ==> !AnyBusy(chosen.files, busy)
    // the output level's files are the least cut around those that meet the original inputs
    ensures ok ==> outputs.files == OutputsFor(levels, inputs, outputLevel)
    ensures ok ==> chosen.files == Expanded(levels, busy, inputs, outputLevel, limit)
    // on level 0 no file that meets the chosen ones is left behind
    ensures ok && inputs.level == 0 && Covers(levels[0], inputs.files, Hull(inputs.files)) ==>
              Covers(levels[0], chosen.files, Hull(chosen.files))
    // refused exactly when the output level's part is taken
    ensures ok <==> inputs.level == outputLevel || !AnyBusy(CutAround(levels[outputLevel], Hull(inputs.files)), busy)
  {
    hide Low, High, LeastLow, LeastHigh, SortedLevel, Hull, Meets, CutAround, Chosen;
    chosen, outputs := inputs, InputFiles(outputLevel, []);
    a', b', c, d := a, b, 0, 0;
    if inputs.level == outputLevel {
      return true, chosen, outputs, a', b', c, d;
    }
    LevelSorted(levels, outputLevel);
    var r := RangeOf(levels, inputs, a, b);
    ok, outputs, c, d := ChooseOutputs(levels, busy, outputLevel, r);
    if !ok {
      return;
    }
    ChosenCover(levels[outputLevel], r);
    if outputs.files != [] {
      ChosenSorted(levels, inputs, a, b);
      ChosenSorted(levels, outputs, c, d);
      var all := GetRangeOfTwo(inputs, outputs);
      HullJoin(inputs.files, outputs.files);
      var yes, expanded;
      ghost var a1, b1;
      yes, expanded, a1, b1 := ExpandByOverlap(levels, busy, inputs, outputs, all, limit, a, b, r);
      if !yes {
        yes, expanded, a1, b1 := ExpandWithin(levels, busy, inputs, outputs, all, limit, a, b, r);
      }
      if yes {
        chosen, a', b' := expanded, a1, b1;
      }
    }
  }

  // ----- running compactions

  datatype Compaction = Compaction(id: nat, inputs: seq<InputFiles>, startLevel: nat, outputLevel: nat, range: Range)

  predicate Conflicts(running: seq<Compaction>, r: Range, level: nat)
  {
    exists i :: 0 <= i < |running| && running[i].outputLevel == level && Meets(r, running[i].range)
  }

  method RangeOverlapWithCompaction(running: seq<Compaction>, r: Range, level: nat) returns (overlap: bool)
    ensures overlap <==> Conflicts(running, r, level)
  {
    for i := 0 to |running|
      invariant forall k :: 0 <= k < i ==> !(running[k].outputLevel == level && Meets(r, running[k].range))
    {
      if running[i].outputLevel == level && r.lo <= running[i].range.hi && r.hi >= running[i].range.lo {
        return true;
      }
    }
    return false;
  }

  lemma {:induction false} SomeFiles(inputs: seq<InputFiles>)
    ensures AllFiles(inputs) == [] <==> forall i :: 0 <= i < |inputs| ==> inputs[i].files == []
  {
    if inputs != [] {
      SomeFiles(inputs[..|inputs| - 1]);
    }
  }

  method FilesRangeOverlapWithCompaction(running: seq<Compaction>, inputs: seq<InputFiles>, level: nat)
    returns (overlap: bool)
    requires Ordered(inputs)
    ensures overlap <==> AllFiles(inputs) != [] && Conflicts(running, Hull(AllFiles(inputs)), level)
  {
    hide Hull;
    var empty := true;
    NoFiles(inputs);
    for i := 0 to |inputs|
      invariant empty && AllFiles(inputs[..i]) == []
    {
      AllFilesStep(inputs, i);
      if inputs[i].files != [] {
        empty := false;
        break;
      }
    }
    if empty {
      assert inputs[..|inputs|] == inputs;
      return false;
    }
    SomeFiles(inputs);
    var r := GetRangeOfAll(inputs);
    overlap := RangeOverlapWithCompaction(running, r, level);
  }
}
