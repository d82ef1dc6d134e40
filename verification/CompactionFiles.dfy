/** Table files, their user-key ranges and the levels they are in. */
module CompactionFiles {
  /** User keys are numbers; 0 stands for the empty key. */
  datatype Range = Range(lo: nat, hi: nat)

  predicate Meets(a: Range, b: Range) { a.lo <= b.hi && b.lo <= a.hi }

  predicate Within(a: Range, b: Range) { b.lo <= a.lo && a.hi <= b.hi }

  function Join(a: Range, b: Range): Range
  {
    Range(if a.lo < b.lo then a.lo else b.lo, if a.hi < b.hi then b.hi else a.hi)
  }

  datatype File = File(number: nat, smallest: nat, largest: nat, size: nat)

  function Span(f: File): Range { Range(f.smallest, f.largest) }

  datatype InputFiles = InputFiles(level: nat, files: seq<File>)

  /** Below level 0 files are in key order; neighbours may share one user key. */
  predicate SortedLevel(files: seq<File>)
  {
    && (forall i :: 0 <= i < |files| ==> files[i].smallest <= files[i].largest)
    && (forall i, j :: 0 <= i < j < |files| ==> files[i].largest <= files[j].smallest)
  }

  predicate LevelsOk(levels: seq<seq<File>>)
  {
    && (forall l :: 0 < l < |levels| ==> SortedLevel(levels[l]))
    && (forall l, i :: 0 <= l < |levels| && 0 <= i < |levels[l]| ==> levels[l][i].smallest <= levels[l][i].largest)
    && (forall l, m, i, j :: 0 <= l < |levels| && 0 <= m < |levels| && 0 <= i < |levels[l]| && 0 <= j < |levels[m]| ==>
          levels[l][i].number == levels[m][j].number ==> l == m && i == j)
  }

  predicate NoTwice(files: seq<File>)
  {
    forall i, j :: 0 <= i < j < |files| ==> files[i].number != files[j].number
  }

  lemma LevelNoTwice(levels: seq<seq<File>>, l: nat, a: nat, b: nat)
    requires LevelsOk(levels) && l < |levels| && a <= b <= |levels[l]|
    ensures NoTwice(levels[l][a..b])
  {
  }

  // ----- the range of several files

  function Hull(files: seq<File>): Range
    requires files != []
  {
    var n := |files| - 1;
    if n == 0 then Span(files[0]) else Join(Hull(files[..n]), Span(files[n]))
  }

  lemma {:induction false} HullCovers(files: seq<File>, i: nat)
    requires i < |files|
    ensures Within(Span(files[i]), Hull(files))
  {
    if i < |files| - 1 {
      HullCovers(files[..|files| - 1], i);
    }
  }

  lemma {:induction false} HullLeast(files: seq<File>, r: Range)
    requires files != [] && forall i :: 0 <= i < |files| ==> Within(Span(files[i]), r)
    ensures Within(Hull(files), r)
  {
    if |files| > 1 {
      HullLeast(files[..|files| - 1], r);
    }
  }

  /** The ends of the range are those of two of the files. */
  lemma {:induction false} HullOf(files: seq<File>) returns (a: nat, b: nat)
    requires files != []
    ensures a < |files| && files[a].smallest == Hull(files).lo
    ensures b < |files| && files[b].largest == Hull(files).hi
  {
    var n := |files| - 1;
    a, b := n, n;
    if n > 0 {
      var x, y := HullOf(files[..n]);
      a := if files[x].smallest < files[n].smallest then x else n;
      b := if files[y].largest < files[n].largest then n else y;
    }
  }

  lemma HullGrows(a: seq<File>, b: seq<File>)
    requires a != [] && b != [] && forall f :: f in a ==> f in b
    ensures Within(Hull(a), Hull(b))
  {
    forall i | 0 <= i < |a| ensures Within(Span(a[i]), Hull(b)) {
      assert a[i] in b;
      var k :| 0 <= k < |b| && b[k] == a[i];
      HullCovers(b, k);
    }
    HullLeast(a, Hull(b));
  }

  lemma HullOrdered(files: seq<File>)
    requires files != [] && forall i :: 0 <= i < |files| ==> files[i].smallest <= files[i].largest
    ensures Hull(files).lo <= Hull(files).hi
  {
    HullCovers(files, 0);
  }

  /** In key order, the first and the last file bound all. */
  lemma SortedHull(files: seq<File>)
    requires files != [] && SortedLevel(files)
    ensures Hull(files) == Range(files[0].smallest, files[|files| - 1].largest)
  {
    var r := Range(files[0].smallest, files[|files| - 1].largest);
    HullLeast(files, r);
    HullCovers(files, 0);
    HullCovers(files, |files| - 1);
  }

  lemma HullJoin(a: seq<File>, b: seq<File>)
    requires a != [] && b != []
    ensures Hull(a + b) == Join(Hull(a), Hull(b))
  {
    HullGrows(a, a + b);
    HullGrows(b, a + b);
    forall i | 0 <= i < |a + b| ensures Within(Span((a + b)[i]), Join(Hull(a), Hull(b))) {
      if i < |a| {
        HullCovers(a, i);
      } else {
        HullCovers(b, i - |a|);
      }
    }
    HullLeast(a + b, Join(Hull(a), Hull(b)));
  }

  // ----- GetOverlappingInputs below level 0: the files of a sorted level that meet a range

  function Low(files: seq<File>, lo: nat): (a: nat)
    ensures a <= |files|
    ensures forall i :: 0 <= i < a ==> files[i].largest < lo
    ensures a < |files| ==> lo <= files[a].largest
  {
    if files == [] || lo <= files[0].largest then 0 else 1 + Low(files[1..], lo)
  }

  function High(files: seq<File>, hi: nat): (b: nat)
    ensures b <= |files|
    ensures forall i :: b <= i < |files| ==> hi < files[i].smallest
    ensures b > 0 ==> files[b - 1].smallest <= hi
  {
    if files == [] || files[|files| - 1].smallest <= hi then |files| else High(files[..|files| - 1], hi)
  }

  function Overlapping(files: seq<File>, r: Range): seq<File>
  {
    var a, b := Low(files, r.lo), High(files, r.hi);
    if a < b then files[a..b] else []
  }

  lemma OverlappingExact(files: seq<File>, r: Range)
    requires SortedLevel(files)
    ensures forall i :: 0 <= i < |files| ==> (Meets(Span(files[i]), r) <==> Low(files, r.lo) <= i < High(files, r.hi))
  {
    hide Low, High;
    var a, b := Low(files, r.lo), High(files, r.hi);
    forall i | 0 <= i < |files| ensures Meets(Span(files[i]), r) <==> a <= i < b {
      if i > a {
        assert files[a].largest <= files[i].smallest;
      }
      if i + 1 < b {
        assert files[i].largest <= files[b - 1].smallest;
      }
    }
  }

  // ----- GetOverlappingInputs on level 0: the range grows with the files it meets

  function GrowOnce(files: seq<File>, r: Range): (r': Range)
    ensures Within(r, r')
  {
    if files == [] then r
    else
      var r1 := GrowOnce(files[..|files| - 1], r);
      var f := files[|files| - 1];
      if Meets(Span(f), r1) then Join(r1, Span(f)) else r1
  }

  function Outside(files: seq<File>, r: Range): nat
  {
    if files == [] then 0
    else Outside(files[..|files| - 1], r) + if Within(Span(files[|files| - 1]), r) then 0 else 1
  }

  lemma {:induction false} OutsideShrinks(files: seq<File>, r: Range, r': Range)
    requires Within(r, r')
    ensures Outside(files, r') <= Outside(files, r)
    ensures (exists i :: 0 <= i < |files| && Within(Span(files[i]), r') && !Within(Span(files[i]), r)) ==>
              Outside(files, r') < Outside(files, r)
  {
    if files != [] {
      var n := |files| - 1;
      OutsideShrinks(files[..n], r, r');
      if i :| 0 <= i < n && Within(Span(files[i]), r') && !Within(Span(files[i]), r) {
        assert files[..n][i] == files[i];
      }
    }
  }

  /** A range that grows has swallowed a file. */
  lemma {:induction false} GrowSwallows(files: seq<File>, r: Range)
    requires GrowOnce(files, r) != r
    ensures exists i :: 0 <= i < |files| && Within(Span(files[i]), GrowOnce(files, r)) && !Within(Span(files[i]), r)
  {
    var n := |files| - 1;
    var r1 := GrowOnce(files[..n], r);
    if r1 == r {
      assert Within(Span(files[n]), GrowOnce(files, r)) && !Within(Span(files[n]), r);
    } else {
      GrowSwallows(files[..n], r);
      var i :| 0 <= i < n && Within(Span(files[..n][i]), r1) && !Within(Span(files[..n][i]), r);
      assert files[..n][i] == files[i];
    }
  }

  function ClosedRange(files: seq<File>, r: Range): (r': Range)
    ensures Within(r, r') && GrowOnce(files, r') == r'
    decreases Outside(files, r)
  {
    var r1 := GrowOnce(files, r);
    if r1 == r then r
    else
      GrowSwallows(files, r);
      OutsideShrinks(files, r, r1);
      ClosedRange(files, r1)
  }

  lemma {:induction false} ClosedHolds(files: seq<File>, r: Range, i: nat)
    requires GrowOnce(files, r) == r && i < |files| && Meets(Span(files[i]), r)
    ensures Within(Span(files[i]), r)
  {
    var n := |files| - 1;
    assert GrowOnce(files[..n], r) == r;
    if i < n {
      ClosedHolds(files[..n], r, i);
    }
  }

  function Meeting(files: seq<File>, r: Range): (m: seq<File>)
    ensures forall f :: f in m <==> f in files && Meets(Span(f), r)
  {
    if files == [] then []
    else
      var rest, f := Meeting(files[..|files| - 1], r), files[|files| - 1];
      assert files == files[..|files| - 1] + [f];
      if Meets(Span(f), r) then rest + [f] else rest
  }

  lemma {:induction false} MeetingNoTwice(files: seq<File>, r: Range)
    requires NoTwice(files)
    ensures NoTwice(Meeting(files, r))
  {
    if files != [] {
      var n := |files| - 1;
      MeetingNoTwice(files[..n], r);
      var rest := Meeting(files[..n], r);
      forall i | 0 <= i < |rest| ensures rest[i].number != files[n].number {
        assert rest[i] in files[..n];
      }
    }
  }

  function OverlappingL0(files: seq<File>, r: Range): seq<File>
  {
    Meeting(files, ClosedRange(files, r))
  }

  /** Every file of the level that meets the chosen ones is chosen. */
  lemma L0Closed(files: seq<File>, r: Range, f: File)
    requires f in files && OverlappingL0(files, r) != []
    requires Meets(Span(f), Hull(OverlappingL0(files, r))) || Meets(Span(f), r)
    ensures f in OverlappingL0(files, r)
  {
    hide ClosedRange, Meeting;
    var c, m := ClosedRange(files, r), OverlappingL0(files, r);
    forall k | 0 <= k < |m| ensures Within(Span(m[k]), c) {
      assert m[k] in files;
      var i :| 0 <= i < |files| && files[i] == m[k];
      ClosedHolds(files, c, i);
    }
    HullLeast(m, c);
  }
}
