/** The part of a `Compaction` its iterator consults, and the moving cursor
    that tells whether a user key can occur below the output level. */
module DeeperLevels {
  /** The user-key range of one table file. */
  datatype FileRange = FileRange(smallest: int, largest: int)

  datatype Compaction = Compaction(
    bottommost: bool,
    outputLevel: nat,
    levelStyle: bool,
    levels: seq<seq<FileRange>>,
    largestUserKey: int,
    allowIngestBehind: bool,
    preserveDeletes: bool)

  predicate Covers(f: FileRange, key: int)
  {
    f.smallest <= key <= f.largest
  }

  /** Files of a level above 0: sorted, and neighbours may touch at one user key. */
  predicate SortedLevel(files: seq<FileRange>)
  {
    && (forall i :: 0 <= i < |files| ==> files[i].smallest <= files[i].largest)
    && (forall i, j :: 0 <= i < j < |files| ==> files[i].largest <= files[j].smallest)
  }

  predicate LevelsSorted(c: Compaction)
  {
    forall lvl :: c.outputLevel < lvl < |c.levels| ==> SortedLevel(c.levels[lvl])
  }

  predicate LevelMisses(files: seq<FileRange>, key: int)
  {
    forall i :: 0 <= i < |files| ==> !Covers(files[i], key)
  }

  /** The answer of a scan from scratch. */
  predicate AbsentBelow(c: Compaction, key: int)
  {
    || c.bottommost
    || (c.outputLevel != 0 && c.levelStyle &&
        forall lvl :: c.outputLevel < lvl < |c.levels| ==> LevelMisses(c.levels[lvl], key))
  }

  ghost predicate Skipped(files: seq<FileRange>, n: nat, key: int)
    requires n <= |files|
  {
    forall i :: 0 <= i < n ==> files[i].largest < key
  }

  /** Everything the cursor has skipped ends before `key`. */
  ghost predicate CursorAt(c: Compaction, ptrs: seq<nat>, key: int)
  {
    && |ptrs| == |c.levels|
    && forall lvl :: c.outputLevel < lvl < |c.levels| ==>
         ptrs[lvl] <= |c.levels[lvl]| && Skipped(c.levels[lvl], ptrs[lvl], key)
  }

  lemma CursorMonotone(c: Compaction, ptrs: seq<nat>, key: int, key': int)
    requires CursorAt(c, ptrs, key) && key <= key'
    ensures CursorAt(c, ptrs, key')
  {
    forall lvl | c.outputLevel < lvl < |c.levels| ensures Skipped(c.levels[lvl], ptrs[lvl], key') {
      assert Skipped(c.levels[lvl], ptrs[lvl], key);
    }
  }

  lemma CursorMoved(c: Compaction, ptrs: seq<nat>, lvl: int, key: int)
    requires CursorAt(c, ptrs, key) && c.outputLevel < lvl < |c.levels|
    requires ptrs[lvl] < |c.levels[lvl]| && c.levels[lvl][ptrs[lvl]].largest < key
    ensures CursorAt(c, ptrs[lvl := ptrs[lvl] + 1], key)
  {
    var ptrs' := ptrs[lvl := ptrs[lvl] + 1];
    forall l | c.outputLevel < l < |c.levels|
      ensures ptrs'[l] <= |c.levels[l]| && Skipped(c.levels[l], ptrs'[l], key)
    {
      assert Skipped(c.levels[l], ptrs[l], key);
    }
  }

  /** KeyNotExistsBeyondOutputLevel: the cursor only moves forward, and yet the
      answer is the one of a scan from scratch. */
  method KeyNotExistsBeyondOutputLevel(c: Compaction, key: int, ptrs: seq<nat>)
    returns (absent: bool, ptrs': seq<nat>)
    requires LevelsSorted(c) && CursorAt(c, ptrs, key)
    ensures absent == AbsentBelow(c, key)
    ensures CursorAt(c, ptrs', key)
    ensures forall lvl :: 0 <= lvl < |ptrs| ==> ptrs[lvl] <= ptrs'[lvl]
  {
    ptrs' := ptrs;
    if c.bottommost {
      return true, ptrs';
    }
    if c.outputLevel != 0 && c.levelStyle {
      var lvl := c.outputLevel + 1;
      while lvl < |c.levels|
        invariant c.outputLevel < lvl
        invariant CursorAt(c, ptrs', key)
        invariant forall l :: 0 <= l < |ptrs| ==> ptrs[l] <= ptrs'[l]
        invariant forall l :: c.outputLevel < l < lvl && l < |c.levels| ==> LevelMisses(c.levels[l], key)
      {
        var files := c.levels[lvl];
        while ptrs'[lvl] < |files|
          invariant CursorAt(c, ptrs', key)
          invariant forall l :: 0 <= l < |ptrs| ==> ptrs[l] <= ptrs'[l]
          invariant ptrs'[lvl] <= |files|
          decreases |files| - ptrs'[lvl]
        {
          var f := files[ptrs'[lvl]];
          if key <= f.largest {
            if key >= f.smallest {
              assert Covers(f, key);
              return false, ptrs';
            }
            break;
          }
          CursorMoved(c, ptrs', lvl, key);
          ptrs' := ptrs'[lvl := ptrs'[lvl] + 1];
        }
        assert SortedLevel(files) && Skipped(files, ptrs'[lvl], key);
        assert LevelMisses(files, key);
        lvl := lvl + 1;
      }
      return true, ptrs';
    }
    return false, ptrs';
  }

  /** A fresh cursor has skipped nothing. */
  function FreshCursor(c: Compaction): (ptrs: seq<nat>)
    ensures forall key :: CursorAt(c, ptrs, key)
  {
    seq(|c.levels|, _ => 0)
  }

  /** One iterator's life: any non-decreasing sequence of queries, one cursor. */
  method QueryAll(c: Compaction, keys: seq<int>) returns (answers: seq<bool>)
    requires LevelsSorted(c)
    requires forall i, j :: 0 <= i < j < |keys| ==> keys[i] <= keys[j]
    ensures |answers| == |keys|
    ensures forall i :: 0 <= i < |keys| ==> answers[i] == AbsentBelow(c, keys[i])
  {
    var ptrs := FreshCursor(c);
    answers := [];
    for n := 0 to |keys|
      invariant |answers| == n
      invariant n < |keys| ==> CursorAt(c, ptrs, keys[n])
      invariant forall i :: 0 <= i < n ==> answers[i] == AbsentBelow(c, keys[i])
    {
      var absent;
      absent, ptrs := KeyNotExistsBeyondOutputLevel(c, keys[n], ptrs);
      answers := answers + [absent];
      if n + 1 < |keys| {
        CursorMonotone(c, ptrs, keys[n], keys[n + 1]);
      }
    }
  }
}
