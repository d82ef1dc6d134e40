/** Merging the instances' lists of hottest keys into one assignment of keys to instances. */
module Partitioner {
  datatype Entry = Entry(key: nat, count: nat)

  datatype Merged = Merged(key: nat, freq: nat, source: nat)

  /** Every instance reports at least `k` keys, the hottest first, each used at least once. */
  predicate ListsOk(topks: seq<seq<Entry>>, k: nat)
  {
    forall i :: 0 <= i < |topks| ==>
      && |topks[i]| >= k
      && (forall j :: 0 <= j < k ==> topks[i][j].count > 0)
      && (forall j, m :: 0 <= j < m < k ==> topks[i][j].count >= topks[i][m].count)
  }

  // ----- what the merge promises

  predicate Precedes(a: Merged, b: Merged)
  {
    a.freq > b.freq || (a.freq == b.freq && a.source <= b.source)
  }

  /** Hottest first; among equals, lower instances first. */
  predicate Descending(merged: seq<Merged>)
  {
    forall p, q :: 0 <= p < q < |merged| ==> Precedes(merged[p], merged[q])
  }

  function FromList(merged: seq<Merged>, i: nat): seq<Entry>
  {
    if merged == [] then []
    else
      var m := merged[|merged| - 1];
      FromList(merged[..|merged| - 1], i) + if m.source == i then [Entry(m.key, m.freq)] else []
  }

  /** The instance for the key merged at place `p`. */
  function Instance(p: nat): nat
  {
    if p < 3000 then 0 else if p < 4000 then 1 else 2
  }

  const ASSIGNED := 5000

  /** The exceptions table: the first 5000 places count, and a key keeps its first one. */
  function Assigned(merged: seq<Merged>): map<nat, nat>
  {
    if merged == [] then map[]
    else
      var p := |merged| - 1;
      var m := Assigned(merged[..p]);
      if p < ASSIGNED && merged[p].key !in m then m[merged[p].key := Instance(p)] else m
  }

  // ----- the cursors

  function Sum(s: seq<nat>): nat
  {
    if s == [] then 0 else Sum(s[..|s| - 1]) + s[|s| - 1]
  }

  lemma {:induction false} SumStep(s: seq<nat>, i: nat)
    requires i < |s|
    ensures Sum(s[i := s[i] + 1]) == Sum(s) + 1
  {
    var n, t := |s| - 1, s[i := s[i] + 1];
    if i < n {
      SumStep(s[..n], i);
      assert t[..n] == s[..n][i := s[..n][i] + 1];
    } else {
      assert t[..n] == s[..n];
    }
  }

  /** As long as not everything is merged, some list has an entry left. */
  lemma {:induction false} SomeLeft(s: seq<nat>, k: nat)
    requires (forall i :: 0 <= i < |s| ==> s[i] <= k) && Sum(s) < k * |s|
    ensures exists i :: 0 <= i < |s| && s[i] < k
  {
    if s != [] {
      var n := |s| - 1;
      if s[n] == k {
        assert k * |s| == k * n + k;
        SomeLeft(s[..n], k);
        var i :| 0 <= i < n && s[..n][i] < k;
        assert s[i] < k;
      }
    }
  }

  lemma {:induction false} SumAtMost(s: seq<nat>, k: nat)
    requires forall i :: 0 <= i < |s| ==> s[i] <= k
    ensures Sum(s) <= k * |s|
  {
    if s != [] {
      SumAtMost(s[..|s| - 1], k);
    }
  }

  lemma {:induction false} AllUsed(s: seq<nat>, k: nat)
    requires (forall i :: 0 <= i < |s| ==> s[i] <= k) && Sum(s) == k * |s|
    ensures forall i :: 0 <= i < |s| ==> s[i] == k
  {
    if s != [] {
      var n := |s| - 1;
      assert k * |s| == k * n + k;
      SumAtMost(s[..n], k);
      AllUsed(s[..n], k);
      assert forall i :: 0 <= i < n ==> s[i] == s[..n][i];
    }
  }

  lemma {:induction false} SumZero(s: seq<nat>)
    requires forall i :: 0 <= i < |s| ==> s[i] == 0
    ensures Sum(s) == 0
  {
    if s != [] {
      SumZero(s[..|s| - 1]);
    }
  }

  // ----- the merge

  /** The first list whose next entry has the highest count. */
  method FindMax(topks: seq<seq<Entry>>, k: nat, curs: array<nat>) returns (max: nat)
    requires ListsOk(topks, k) && curs.Length == |topks|
    requires exists i :: 0 <= i < curs.Length && curs[i] < k
    ensures max < curs.Length && curs[max] < k
    ensures forall i :: 0 <= i < curs.Length && curs[i] < k ==>
              if i < max then topks[i][curs[i]].count < topks[max][curs[max]].count
              else topks[i][curs[i]].count <= topks[max][curs[max]].count
  {
    max := 0;
    var maxCount := 0;
    for i := 0 to curs.Length
      invariant forall j :: 0 <= j < i && curs[j] < k ==> topks[j][curs[j]].count <= maxCount
      invariant maxCount > 0 ==> max < i && curs[max] < k && topks[max][curs[max]].count == maxCount
      invariant maxCount > 0 ==> forall j :: 0 <= j < max && curs[j] < k ==> topks[j][curs[j]].count < maxCount
    {
      if curs[i] < k && topks[i][curs[i]].count > maxCount {
        max, maxCount := i, topks[i][curs[i]].count;
      }
    }
  }

  function Next(topks: seq<seq<Entry>>, curs: seq<nat>, i: nat): Merged
    requires i < |topks| && i < |curs| && curs[i] < |topks[i]|
  {
    var e := topks[i][curs[i]];
    Merged(e.key, e.count, i)
  }

  /** What is merged so far: the cursors' prefixes, and nothing left beats the last one merged. */
  predicate Progress(topks: seq<seq<Entry>>, k: nat, curs: seq<nat>, merged: seq<Merged>)
  {
    && |curs| == |topks| && Sum(curs) == |merged| && Descending(merged)
    && (forall p :: 0 <= p < |merged| ==> merged[p].source < |topks|)
    && (forall i :: 0 <= i < |topks| ==>
          curs[i] <= k <= |topks[i]| && FromList(merged, i) == topks[i][..curs[i]])
    && (forall i :: 0 <= i < |topks| && curs[i] < k && merged != [] ==>
          Precedes(merged[|merged| - 1], Next(topks, curs, i)))
  }

  lemma FromListStep(merged: seq<Merged>, m: Merged, i: nat)
    ensures FromList(merged + [m], i) == FromList(merged, i) + if m.source == i then [Entry(m.key, m.freq)] else []
  {
    assert (merged + [m])[..|merged|] == merged;
  }

  lemma MergeOne(topks: seq<seq<Entry>>, k: nat, curs: seq<nat>, merged: seq<Merged>, max: nat)
    requires ListsOk(topks, k) && Progress(topks, k, curs, merged) && max < |topks| && curs[max] < k
    requires forall i :: 0 <= i < |topks| && curs[i] < k ==>
               if i < max then topks[i][curs[i]].count < topks[max][curs[max]].count
               else topks[i][curs[i]].count <= topks[max][curs[max]].count
    ensures Progress(topks, k, curs[max := curs[max] + 1], merged + [Next(topks, curs, max)])
  {
    hide Sum, FromList;
    var curs', m := curs[max := curs[max] + 1], Next(topks, curs, max);
    var merged' := merged + [m];
    SumStep(curs, max);
    forall i | 0 <= i < |topks| ensures FromList(merged', i) == topks[i][..curs'[i]] {
      FromListStep(merged, m, i);
      if i == max {
        assert topks[i][..curs[i] + 1] == topks[i][..curs[i]] + [topks[i][curs[i]]];
      }
    }
    forall p | 0 <= p < |merged| ensures Precedes(merged[p], m) {
      if p < |merged| - 1 {
        assert Precedes(merged[p], merged[|merged| - 1]);
      }
    }
    forall i | 0 <= i < |topks| && curs'[i] < k ensures Precedes(m, Next(topks, curs', i)) {
      if i == max {
        assert topks[i][curs[i]].count >= topks[i][curs'[i]].count;
      }
    }
  }

  lemma ListsLong(topks: seq<seq<Entry>>, k: nat)
    requires ListsOk(topks, k)
    ensures forall i :: 0 <= i < |topks| ==> |topks[i]| >= k
  {
  }

  /** unordered_map::emplace leaves an existing key alone. */
  function Emplace(m: map<nat, nat>, key: nat, value: nat): map<nat, nat>
  {
    if key in m then m else m[key := value]
  }

  /** The k-way merge. Every list is read only up to its `k`-th entry. */
  method Repartition(topks: seq<seq<Entry>>, k: nat) returns (merged: seq<Merged>, exceptions: map<nat, nat>)
    requires ListsOk(topks, k)
    ensures |merged| == k * |topks| && Descending(merged)
    ensures forall p :: 0 <= p < |merged| ==> merged[p].source < |topks|
    ensures forall i :: 0 <= i < |topks| ==> |topks[i]| >= k && FromList(merged, i) == topks[i][..k]
    ensures exceptions == Assigned(merged)
  {
    hide Sum, ListsOk;
    var num := |topks|;
    var curs := new nat[num](_ => 0);
    merged, exceptions := [], map[];
    SumZero(curs[..]);
    ListsLong(topks, k);
    while |merged| < k * num
      invariant Progress(topks, k, curs[..], merged) && |merged| <= k * num
      invariant exceptions == Assigned(merged)
      decreases k * num - |merged|
    {
      SomeLeft(curs[..], k);
      ghost var before := curs[..];
      var max := FindMax(topks, k, curs);
      var e := topks[max][curs[max]];
      if |merged| < 3000 {
        exceptions := Emplace(exceptions, e.key, 0);
      } else if |merged| < 4000 {
        exceptions := Emplace(exceptions, e.key, 1);
      } else if |merged| < 5000 {
        exceptions := Emplace(exceptions, e.key, 2);
      }
      MergeOne(topks, k, before, merged, max);
      assert (merged + [Merged(e.key, e.count, max)])[..|merged|] == merged;
      merged := merged + [Merged(e.key, e.count, max)];
      curs[max] := curs[max] + 1;
      assert curs[..] == before[max := before[max] + 1];
    }
    AllUsed(curs[..], k);
  }

  // ----- what follows for the whole list

  function Bag(merged: seq<Merged>): multiset<Entry>
  {
    if merged == [] then multiset{}
    else
      var m := merged[|merged| - 1];
      Bag(merged[..|merged| - 1]) + multiset{Entry(m.key, m.freq)}
  }

  /** All entries of the first `n` lists' prefixes. */
  function Prefixes(topks: seq<seq<Entry>>, k: nat, n: nat): multiset<Entry>
    requires n <= |topks| && forall i :: 0 <= i < |topks| ==> |topks[i]| >= k
  {
    if n == 0 then multiset{} else Prefixes(topks, k, n - 1) + multiset(topks[n - 1][..k])
  }

  function Parts(merged: seq<Merged>, n: nat): multiset<Entry>
  {
    if n == 0 then multiset{} else Parts(merged, n - 1) + multiset(FromList(merged, n - 1))
  }

  lemma {:induction false} PartsGrow(merged: seq<Merged>, m: Merged, n: nat)
    ensures Parts(merged + [m], n) ==
            Parts(merged, n) + if m.source < n then multiset{Entry(m.key, m.freq)} else multiset{}
  {
    if n > 0 {
      PartsGrow(merged, m, n - 1);
      assert (merged + [m])[..|merged|] == merged;
      assert m.source == n - 1 ==> multiset(FromList(merged, n - 1) + [Entry(m.key, m.freq)]) ==
                                   multiset(FromList(merged, n - 1)) + multiset{Entry(m.key, m.freq)};
    }
  }

  lemma {:induction false} NoParts(n: nat)
    ensures Parts([], n) == multiset{}
  {
    if n > 0 {
      NoParts(n - 1);
    }
  }

  lemma {:induction false} BagParts(merged: seq<Merged>, n: nat)
    requires forall p :: 0 <= p < |merged| ==> merged[p].source < n
    ensures Bag(merged) == Parts(merged, n)
  {
    hide Parts, FromList;
    if merged == [] {
      NoParts(n);
    } else {
      var last := |merged| - 1;
      BagParts(merged[..last], n);
      PartsGrow(merged[..last], merged[last], n);
      assert merged[..last] + [merged[last]] == merged;
    }
  }

  lemma {:induction false} SameParts(topks: seq<seq<Entry>>, k: nat, merged: seq<Merged>, n: nat)
    requires n <= |topks| && forall i :: 0 <= i < |topks| ==> |topks[i]| >= k && FromList(merged, i) == topks[i][..k]
    ensures Parts(merged, n) == Prefixes(topks, k, n)
  {
    hide FromList;
    if n > 0 {
      SameParts(topks, k, merged, n - 1);
    }
  }

  /** The merged list is a permutation of all the prefixes. */
  lemma MergedIsPermutation(topks: seq<seq<Entry>>, k: nat, merged: seq<Merged>)
    requires forall p :: 0 <= p < |merged| ==> merged[p].source < |topks|
    requires forall i :: 0 <= i < |topks| ==> |topks[i]| >= k && FromList(merged, i) == topks[i][..k]
    ensures Bag(merged) == Prefixes(topks, k, |topks|)
  {
    BagParts(merged, |topks|);
    SameParts(topks, k, merged, |topks|);
  }

  lemma {:induction false} NotBefore(merged: seq<Merged>, key: nat)
    requires forall q :: 0 <= q < |merged| ==> merged[q].key != key
    ensures key !in Assigned(merged)
  {
    if merged != [] {
      NotBefore(merged[..|merged| - 1], key);
    }
  }

  /** A key's instance is that of its first place, if it is among the first 5000. */
  lemma {:induction false} FirstPlaceCounts(merged: seq<Merged>, p: nat)
    requires p < |merged| && forall q :: 0 <= q < p ==> merged[q].key != merged[p].key
    ensures merged[p].key in Assigned(merged) <==> p < ASSIGNED
    ensures p < ASSIGNED ==> Assigned(merged)[merged[p].key] == Instance(p)
  {
    var last := |merged| - 1;
    if p < last {
      FirstPlaceCounts(merged[..last], p);
    } else {
      NotBefore(merged[..last], merged[p].key);
    }
  }

  /** The first place of the key at `p`. */
  function FirstPlace(merged: seq<Merged>, p: nat): (q: nat)
    requires p < |merged|
    ensures q <= p && merged[q].key == merged[p].key
    ensures forall i :: 0 <= i < q ==> merged[i].key != merged[p].key
  {
    if i :| 0 <= i < p && merged[i].key == merged[p].key then FirstPlace(merged, i) else p
  }

  /** A key that is listed hotter, in any place, than another one in its first place never gets a higher instance
      number. */
  lemma HotterNotHigher(merged: seq<Merged>, p: nat, q: nat)
    requires Descending(merged) && p < |merged| && q < |merged| && merged[p].freq > merged[q].freq
    requires forall i :: 0 <= i < q ==> merged[i].key != merged[q].key
    requires merged[q].key in Assigned(merged)
    ensures merged[p].key in Assigned(merged) && Assigned(merged)[merged[p].key] <= Assigned(merged)[merged[q].key]
  {
    assert p < q;
    FirstPlaceCounts(merged, FirstPlace(merged, p));
    FirstPlaceCounts(merged, q);
  }

  /** With every key in one place only, this holds of all places. */
  lemma DistinctHotterNotHigher(merged: seq<Merged>, p: nat, q: nat)
    requires Descending(merged) && p < |merged| && q < |merged| && merged[p].freq > merged[q].freq
    requires forall i, j :: 0 <= i < j < |merged| ==> merged[i].key != merged[j].key
    requires merged[q].key in Assigned(merged)
    ensures merged[p].key in Assigned(merged) && Assigned(merged)[merged[p].key] <= Assigned(merged)[merged[q].key]
  {
    HotterNotHigher(merged, p, q);
  }
}
