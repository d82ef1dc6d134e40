/** How many entries of a finite map satisfy a predicate. */
module Counting {
  ghost function Where<V(!new)>(m: map<nat, V>, p: V -> bool): set<nat>
  {
    set t | t in m && p(m[t])
  }

  function One(b: bool): nat
  {
    if b then 1 else 0
  }

  ghost function Count<V(!new)>(m: map<nat, V>, p: V -> bool): nat
  {
    |Where(m, p)|
  }

  ghost function Had<V(!new)>(m: map<nat, V>, t: nat, p: V -> bool): nat
  {
    One(t in m && p(m[t]))
  }

  lemma CountOthers<V(!new)>(m: map<nat, V>, t: nat, p: V -> bool)
    ensures Count(m, p) == |Where(m, p) - {t}| + Had(m, t, p)
  {
    if t in m && p(m[t]) {
      assert t in Where(m, p);
    } else {
      assert Where(m, p) - {t} == Where(m, p);
    }
  }

  lemma HadCounted<V(!new)>(m: map<nat, V>, t: nat, p: V -> bool)
    ensures Had(m, t, p) <= Count(m, p)
  {
    CountOthers(m, t, p);
  }

  lemma CountPut<V(!new)>(m: map<nat, V>, t: nat, v: V, p: V -> bool)
    ensures Count(m[t := v], p) + Had(m, t, p) == Count(m, p) + One(p(v))
    ensures Had(m, t, p) <= Count(m, p)
  {
    CountOthers(m, t, p);
    CountOthers(m[t := v], t, p);
    assert Where(m, p) - {t} == Where(m[t := v], p) - {t};
  }

  lemma CountRemove<V(!new)>(m: map<nat, V>, t: nat, p: V -> bool)
    ensures Count(m - {t}, p) + Had(m, t, p) == Count(m, p)
  {
    CountOthers(m, t, p);
    CountOthers(m - {t}, t, p);
    assert Where(m, p) - {t} == Where(m - {t}, p) - {t};
  }
}
