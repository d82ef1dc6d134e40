/** The files completed for a request are the least set that leaves nothing behind. */
module Completions {
  import opened CompactionFiles
  import opened CleanCuts
  import opened SanitizeInputs

  /** Of the included files of levels up to `m`, one begins at or before `hi` and one ends at or after `lo`. */
  ghost predicate Around(levels: seq<seq<File>>, s: set<nat>, m: nat, r: Range)
  {
    && (exists k: nat, i: nat :: k <= m && Named(levels, s, k, i) && levels[k][i].smallest <= r.hi)
    && (exists k: nat, i: nat :: k <= m && Named(levels, s, k, i) && r.lo <= levels[k][i].largest)
  }

  /** On level 0 the included files are a run or, if the output goes further down, everything from some age on. */
  predicate TopClosed(files: seq<File>, s: set<nat>, output: nat)
  {
    if output > 0 then OlderIncluded(files, s)
    else forall i, j, k :: 0 <= i < j < k < |files| && files[i].number in s && files[k].number in s ==>
           files[j].number in s
  }

  /** No file of levels 1 to `output` is left behind that lies, in whole or in part, between included files of
      its own level or of levels above. */
  ghost predicate NothingLeft(levels: seq<seq<File>>, s: set<nat>, output: nat)
    requires output < |levels|
  {
    && TopClosed(levels[0], s, output)
    && forall m: nat, j: nat :: 0 < m <= output && j < |levels[m]| && Around(levels, s, m, Span(levels[m][j])) ==>
         Named(levels, s, m, j)
  }

  // ----- the completed files leave nothing behind

  lemma {:induction false} CompletedUpto(levels: seq<seq<File>>, named: set<nat>, l: nat, output: nat)
    requires LevelsOk(levels) && l <= output + 1 <= |levels|
    ensures var c := Completed(levels, named, l, output);
            Upto(levels, c.named, {}, c.started, c.range, l, output) && (l == 0 ==> !c.started)
  {
    hide LevelFiles, LevelRange, LevelsOk, LevelDone;
    if l > 0 {
      CompletedUpto(levels, named, l - 1, output);
      StepUpto(levels, Completed(levels, named, l - 1, output), {}, l - 1, output);
    }
  }

  /** Later steps add nothing to the levels that are done. */
  lemma {:induction false} Settled(levels: seq<seq<File>>, named: set<nat>, l: nat, m: nat, output: nat, k: nat, i: nat)
    requires LevelsOk(levels) && k < l <= m <= output + 1 <= |levels| && i < |levels[k]|
    ensures Named(levels, Completed(levels, named, m, output).named, k, i)
            <==> Named(levels, Completed(levels, named, l, output).named, k, i)
  {
    hide LevelsOk, Upto, Added, LevelFiles, LevelRange, WithLevel, Completed;
    if l < m {
      Settled(levels, named, l, m - 1, output, k, i);
      var c := Completed(levels, named, m - 1, output);
      CompletedUpto(levels, named, m - 1, output);
      StepCompleted(levels, named, m - 1, output);
      StepUpto(levels, c, {}, m - 1, output);
      var d := WithLevel(levels, c, m - 1, output);
      Unaffected(levels, c.named, d.named, d.range, m - 1, output, k, i);
    }
  }

  lemma DoneWithin(levels: seq<seq<File>>, named: set<nat>, r: Range, k: nat, output: nat, i: nat)
    requires k <= output < |levels| && i < |levels[k]|
    ensures LevelDone(levels, named, {}, r, k, output) && Inc(levels, named, k, i) ==> Within(Span(levels[k][i]), r)
  {
  }

  /** After a level, the included files up to it lie in the range, and all its files that meet the range are in. */
  lemma LevelFull(levels: seq<seq<File>>, c: Completion, l: nat, output: nat)
    requires LevelsOk(levels) && 0 < l <= output < |levels|
    requires Upto(levels, c.named, {}, c.started, c.range, l, output)
    ensures var d := WithLevel(levels, c, l, output);
            && (forall k: nat, i: nat :: k <= l && Named(levels, d.named, k, i) ==>
                  d.started && Within(Span(levels[k][i]), d.range))
            && (forall j: nat :: j < |levels[l]| && d.started && Meets(d.range, Span(levels[l][j])) ==>
                  Named(levels, d.named, l, j))
  {
    hide LevelsOk, Numbers, RunStart, RunEnd, LevelRange, LevelDone;
    StepUpto(levels, c, {}, l, output);
    var d := WithLevel(levels, c, l, output);
    forall k: nat, i: nat | k <= l && Named(levels, d.named, k, i)
      ensures d.started && Within(Span(levels[k][i]), d.range)
    {
      assert Inc(levels, d.named, k, i);
      DoneWithin(levels, d.named, d.range, k, output, i);
    }
    forall j: nat | j < |levels[l]| && d.started && Meets(d.range, Span(levels[l][j]))
      ensures Named(levels, d.named, l, j)
    {
      if First(levels[l], c.named) < |levels[l]| {
        InBelow(levels, l, output + 1, d.range, l, j);
      }
    }
  }

  lemma TopRun(levels: seq<seq<File>>, named: set<nat>, output: nat)
    requires LevelsOk(levels) && output < |levels|
    ensures TopClosed(levels[0], Completed(levels, named, 1, output).named, output)
  {
    hide LevelsOk, Below, LevelRange;
    var files, c := levels[0], Completion(named, false, Range(0, 0));
    FirstCompleted(levels, named, output);
    StepCompleted(levels, named, 0, output);
    if First(files, named) < |files| {
      var first, last := RunStart(files, named, 0), RunEnd(files, named, 0, output) - 1;
      RunAround(levels, named, 0, output);
      forall i | 0 <= i < |files|
        ensures files[i].number in Completed(levels, named, 1, output).named <==> first <= i <= last
      {
        TopOnly(levels, named, LevelRange(levels, c, 0, output), output, first, last, i);
      }
    }
  }

  lemma LevelClosed(levels: seq<seq<File>>, named: set<nat>, output: nat, m: nat, j: nat)
    requires LevelsOk(levels) && 0 < m <= output < |levels| && j < |levels[m]|
    requires Around(levels, Full(levels, named, output).named, m, Span(levels[m][j]))
    ensures Named(levels, Full(levels, named, output).named, m, j)
  {
    hide LevelsOk, Completed, WithLevel, Upto;
    var s, f := Full(levels, named, output).named, levels[m][j];
    var c := Completed(levels, named, m, output);
    CompletedUpto(levels, named, m, output);
    StepCompleted(levels, named, m, output);
    LevelFull(levels, c, m, output);
    var k: nat, i: nat :| k <= m && Named(levels, s, k, i) && levels[k][i].smallest <= f.largest;
    var k': nat, i': nat :| k' <= m && Named(levels, s, k', i') && f.smallest <= levels[k'][i'].largest;
    Settled(levels, named, m + 1, output + 1, output, k, i);
    Settled(levels, named, m + 1, output + 1, output, k', i');
    Settled(levels, named, m + 1, output + 1, output, m, j);
  }

  lemma CompletedClosed(levels: seq<seq<File>>, named: set<nat>, output: nat)
    requires LevelsOk(levels) && output < |levels|
    ensures NothingLeft(levels, Full(levels, named, output).named, output)
  {
    hide LevelsOk, Completed, WithLevel, Upto;
    var s := Full(levels, named, output).named;
    TopRun(levels, named, output);
    forall i: nat | i < |levels[0]|
      ensures levels[0][i].number in s <==> levels[0][i].number in Completed(levels, named, 1, output).named
    {
      Settled(levels, named, 1, output + 1, output, 0, i);
    }
    forall m: nat, j: nat | 0 < m <= output && j < |levels[m]| && Around(levels, s, m, Span(levels[m][j]))
      ensures Named(levels, s, m, j)
    {
      LevelClosed(levels, named, output, m, j);
    }
  }

  // ----- and are contained in every set that does

  /** Two included files of levels up to `m` reach at least as far as the range does. */
  ghost predicate Spanned(levels: seq<seq<File>>, s: set<nat>, m: nat, r: Range)
  {
    && (exists k: nat, i: nat :: k <= m && Named(levels, s, k, i) && levels[k][i].smallest <= r.lo)
    && (exists k: nat, i: nat :: k <= m && Named(levels, s, k, i) && r.hi <= levels[k][i].largest)
  }

  lemma SpannedMeets(levels: seq<seq<File>>, s: set<nat>, m: nat, m': nat, r: Range, f: Range)
    requires Spanned(levels, s, m, r) && m <= m' && Meets(r, f)
    ensures Around(levels, s, m', f)
  {
    var k: nat, i: nat :| k <= m && Named(levels, s, k, i) && levels[k][i].smallest <= r.lo;
    var k': nat, i': nat :| k' <= m && Named(levels, s, k', i') && r.hi <= levels[k'][i'].largest;
    assert k <= m' && levels[k][i].smallest <= f.hi;
    assert k' <= m' && f.lo <= levels[k'][i'].largest;
  }

  /** Neighbours that share a user key with an included file are included. */
  lemma {:induction false} LowIn(levels: seq<seq<File>>, s: set<nat>, l: nat, output: nat, a: nat, i: nat)
    requires LevelsOk(levels) && 0 < l <= output < |levels| && NothingLeft(levels, s, output)
    requires Named(levels, s, l, a) && LeastLow(levels[l], a) <= i <= a
    ensures Named(levels, s, l, i)
    decreases a
  {
    var files := levels[l];
    if i < a {
      LevelSorted(levels, l);
      assert files[a - 1].smallest <= files[a - 1].largest <= files[a].smallest <= files[a].largest;
      assert Around(levels, s, l, Span(files[a - 1]));
      LowIn(levels, s, l, output, a - 1, i);
    }
  }

  lemma {:induction false} HighIn(levels: seq<seq<File>>, s: set<nat>, l: nat, output: nat, b: nat, i: nat)
    requires LevelsOk(levels) && 0 < l <= output < |levels| && NothingLeft(levels, s, output)
    requires 0 < b && Named(levels, s, l, b - 1) && b - 1 <= i < LeastHigh(levels[l], b)
    ensures Named(levels, s, l, i)
    decreases |levels[l]| - b
  {
    var files := levels[l];
    if b <= i {
      LevelSorted(levels, l);
      assert files[b - 1].smallest <= files[b - 1].largest <= files[b].smallest <= files[b].largest;
      assert Around(levels, s, l, Span(files[b]));
      HighIn(levels, s, l, output, b + 1, i);
    }
  }

  lemma RunIn(levels: seq<seq<File>>, named: set<nat>, s: set<nat>, l: nat, output: nat, i: nat)
    requires LevelsOk(levels) && l <= output < |levels| && NothingLeft(levels, s, output) && named <= s
    requires First(levels[l], named) < |levels[l]|
    requires RunStart(levels[l], named, l) <= i < RunEnd(levels[l], named, l, output)
    ensures Named(levels, s, l, i)
  {
    hide LevelsOk, LeastLow, LeastHigh;
    var files, first, end := levels[l], First(levels[l], named), End(levels[l], named);
    if l > 0 {
      if i <= first {
        LowIn(levels, s, l, output, first, i);
      } else if end - 1 <= i {
        HighIn(levels, s, l, output, end, i);
      } else {
        LevelSorted(levels, l);
        assert files[first].largest <= files[i].smallest <= files[i].largest <= files[end - 1].smallest;
        assert files[first].smallest <= files[first].largest && files[end - 1].smallest <= files[end - 1].largest;
        assert Named(levels, s, l, first) && Named(levels, s, l, end - 1);
        assert Around(levels, s, l, Span(files[i]));
      }
    }
  }

  lemma SpannedRun(levels: seq<seq<File>>, c: Completion, s: set<nat>, l: nat, output: nat)
    requires LevelsOk(levels) && l <= output < |levels| && NothingLeft(levels, s, output) && c.named <= s
    requires First(levels[l], c.named) < |levels[l]| && (c.started ==> l > 0 && Spanned(levels, s, l - 1, c.range))
    ensures Spanned(levels, s, l, LevelRange(levels, c, l, output))
  {
    hide LevelsOk, RunStart, RunEnd, NothingLeft, Hull;
    var files := levels[l];
    var a, b := RunStart(files, c.named, l), RunEnd(files, c.named, l, output);
    var x, y := HullOf(files[a..b]);
    RunIn(levels, c.named, s, l, output, a + x);
    RunIn(levels, c.named, s, l, output, a + y);
    if c.started {
      var k: nat, i: nat :| k <= l - 1 && Named(levels, s, k, i) && levels[k][i].smallest <= c.range.lo;
      var k': nat, i': nat :| k' <= l - 1 && Named(levels, s, k', i') && c.range.hi <= levels[k'][i'].largest;
      assert k <= l && k' <= l;
    }
  }

  lemma LevelIn(levels: seq<seq<File>>, c: Completion, s: set<nat>, l: nat, output: nat, n: nat)
    requires LevelsOk(levels) && l <= output < |levels| && NothingLeft(levels, s, output) && c.named <= s
    requires c.started ==> l > 0 && Spanned(levels, s, l - 1, c.range)
    requires n in LevelFiles(levels, c, l, output)
    ensures n in s
  {
    hide LevelsOk, RunStart, RunEnd, LevelRange, Spanned;
    var files := levels[l];
    var a, b := RunStart(files, c.named, l), RunEnd(files, c.named, l, output);
    if n in Numbers(files, a, b) {
      var i :| a <= i < b && files[i].number == n;
      RunIn(levels, c.named, s, l, output, i);
    } else {
      var r, from := LevelRange(levels, c, l, output), if l == 0 then 1 else l;
      SpannedRun(levels, c, s, l, output);
      var m, j :| from <= m <= output && 0 <= j < |levels[m]| && levels[m][j].number == n
                  && Meets(r, Span(levels[m][j]));
      SpannedMeets(levels, s, l, m, r, Span(levels[m][j]));
      assert Named(levels, s, m, j);
    }
  }

  lemma SpannedMore(levels: seq<seq<File>>, s: set<nat>, m: nat, m': nat, r: Range)
    requires Spanned(levels, s, m, r) && m <= m'
    ensures Spanned(levels, s, m', r)
  {
    var k: nat, i: nat :| k <= m && Named(levels, s, k, i) && levels[k][i].smallest <= r.lo;
    var k': nat, i': nat :| k' <= m && Named(levels, s, k', i') && r.hi <= levels[k'][i'].largest;
    assert k <= m' && k' <= m';
  }

  /** Any set with the named files that leaves nothing behind has all that the completion has. */
  lemma {:induction false} CompletedLeast(levels: seq<seq<File>>, named: set<nat>, s: set<nat>, l: nat, output: nat)
    requires LevelsOk(levels) && l <= output + 1 <= |levels| && named <= s && NothingLeft(levels, s, output)
    ensures var c := Completed(levels, named, l, output);
            c.named <= s && (c.started ==> l > 0 && Spanned(levels, s, l - 1, c.range))
  {
    hide LevelsOk, LevelFiles, LevelRange, NothingLeft, Spanned;
    if l > 0 {
      CompletedLeast(levels, named, s, l - 1, output);
      var c := Completed(levels, named, l - 1, output);
      forall n | n in LevelFiles(levels, c, l - 1, output) ensures n in s {
        LevelIn(levels, c, s, l - 1, output, n);
      }
      if First(levels[l - 1], c.named) < |levels[l - 1]| {
        SpannedRun(levels, c, s, l - 1, output);
      } else if c.started {
        SpannedMore(levels, s, l - 2, l - 1, c.range);
      }
    }
  }
}
