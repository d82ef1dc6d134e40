/** The circular doubly linked list of evictable entries, oldest first. */
module LruList {
  import opened LruHandles

  function Circle(d: LRUHandle, order: seq<LRUHandle>): (c: seq<LRUHandle>)
    ensures |c| == |order| + 2
  {
    [d] + order + [d]
  }

  /** Going round from the dummy `d` visits `order` and comes back, both ways. */
  ghost predicate Ring(d: LRUHandle, order: seq<LRUHandle>)
    reads d`next, d`prev, order`next, order`prev
  {
    var c := Circle(d, order);
    forall i, j :: 0 <= i && j == i + 1 && j < |c| ==> c[i].next == c[j] && c[j].prev == c[i]
  }

  predicate Proper(d: LRUHandle, order: seq<LRUHandle>)
  {
    Distinct(order) && d !in order
  }

  function Without(order: seq<LRUHandle>, k: nat): seq<LRUHandle>
    requires k < |order|
  {
    order[..k] + order[k + 1..]
  }

  function With(order: seq<LRUHandle>, k: nat, e: LRUHandle): seq<LRUHandle>
    requires k <= |order|
  {
    order[..k] + [e] + order[k..]
  }

  /** Takes `e` out of the list. */
  method Unlink(e: LRUHandle, ghost d: LRUHandle, ghost order: seq<LRUHandle>, ghost k: nat)
    requires Ring(d, order) && Proper(d, order) && k < |order| && order[k] == e
    modifies d`next, d`prev, order`next, order`prev
    ensures Ring(d, Without(order, k)) && Proper(d, Without(order, k))
    ensures e.next == null && e.prev == null
  {
    ghost var c := Circle(d, order);
    assert c[k + 1] == e && c[k].next == e && c[k + 2].prev == e;
    e.next.prev := e.prev;
    e.prev.next := e.next;
    e.prev, e.next := null, null;
    ghost var c' := Circle(d, Without(order, k));
    forall i, j | 0 <= i && j == i + 1 && j < |c'| ensures c'[i].next == c'[j] && c'[j].prev == c'[i] {
      assert c'[i] == c[if i <= k then i else i + 1] && c'[j] == c[if j <= k then j else j + 1];
    }
  }

  /** Puts `e` between the neighbours `a` and `b`. */
  method Link(e: LRUHandle, a: LRUHandle, b: LRUHandle, ghost d: LRUHandle, ghost order: seq<LRUHandle>, ghost k: nat)
    requires Ring(d, order) && Proper(d, order) && k <= |order| && e !in order && e != d
    requires a == Circle(d, order)[k] && b == Circle(d, order)[k + 1]
    modifies d`next, d`prev, order`next, order`prev, e`next, e`prev
    ensures Ring(d, With(order, k, e)) && Proper(d, With(order, k, e))
  {
    ghost var c := Circle(d, order);
    e.next := b;
    e.prev := a;
    e.prev.next := e;
    e.next.prev := e;
    ghost var c' := Circle(d, With(order, k, e));
    forall i, j | 0 <= i && j == i + 1 && j < |c'| ensures c'[i].next == c'[j] && c'[j].prev == c'[i] {
      assert i <= k ==> c'[i] == c[i];
      assert i > k + 1 ==> c'[i] == c[i - 1];
      assert j <= k ==> c'[j] == c[j];
      assert j > k + 1 ==> c'[j] == c[j - 1];
    }
  }

  lemma Neighbours(d: LRUHandle, order: seq<LRUHandle>, k: nat)
    requires Ring(d, order) && k < |order|
    ensures order[k].prev == Circle(d, order)[k] && order[k].next == Circle(d, order)[k + 2]
  {
    var c := Circle(d, order);
    assert c[k + 1] == order[k];
  }

  /** Where the last entry of the low-priority pool is once entry `k` is gone. */
  lemma LowWithout(d: LRUHandle, order: seq<LRUHandle>, k: nat, low: nat)
    requires Proper(d, order) && k < |order| && low <= |order|
    ensures Circle(d, order)[low] == order[k] <==> low == k + 1
    ensures var low' := if k < low then low - 1 else low;
            Circle(d, Without(order, k))[low'] == Circle(d, order)[if low == k + 1 then k else low]
  {
  }

  lemma Ends(d: LRUHandle, order: seq<LRUHandle>)
    ensures Circle(d, order)[0] == d && Circle(d, order)[|order| + 1] == d
    ensures Ring(d, order) ==> d.prev == Circle(d, order)[|order|]
  {
    var c := Circle(d, order);
    assert Ring(d, order) ==> c[|order| + 1].prev == c[|order|];
  }

  lemma After(d: LRUHandle, order: seq<LRUHandle>, k: nat)
    requires Ring(d, order) && k <= |order|
    ensures Circle(d, order)[k].next == Circle(d, order)[k + 1]
  {
  }

  lemma NotDummy(d: LRUHandle, order: seq<LRUHandle>, k: nat)
    requires Proper(d, order) && k < |order|
    ensures Circle(d, order)[k + 1] == order[k] != d
  {
  }

  // ----- charges

  function Charge(order: seq<LRUHandle>): nat
  {
    if order == [] then 0 else Charge(order[..|order| - 1]) + order[|order| - 1].charge
  }

  lemma {:induction false} ChargeJoin(a: seq<LRUHandle>, b: seq<LRUHandle>)
    ensures Charge(a + b) == Charge(a) + Charge(b)
  {
    if b == [] {
      assert a + b == a;
    } else {
      var n := |b| - 1;
      assert (a + b)[..|a + b| - 1] == a + b[..n];
      ChargeJoin(a, b[..n]);
    }
  }

  lemma ChargeOne(e: LRUHandle)
    ensures Charge([e]) == e.charge
  {
    assert Charge([e][..0]) == 0;
  }

  lemma WithoutTail(order: seq<LRUHandle>, k: nat, low: nat)
    requires k < |order| && low <= |order|
    ensures |Without(order, k)| == |order| - 1
    ensures k < low ==> Without(order, k)[low - 1..] == order[low..]
    ensures k >= low ==> Without(order, k)[low..] == Without(order[low..], k - low) && order[low..][k - low] == order[k]
  {
  }

  lemma SplitAt(order: seq<LRUHandle>, k: nat)
    requires k < |order|
    ensures order == order[..k] + [order[k]] + order[k + 1..]
  {
  }

  lemma ChargeMiddle(order: seq<LRUHandle>, k: nat)
    requires k < |order|
    ensures Charge(order) == Charge(Without(order, k)) + order[k].charge
  {
    hide Charge;
    ChargeOne(order[k]);
    ChargeJoin(order[..k], order[k + 1..]);
    ChargeJoin(order[..k], [order[k]]);
    ChargeJoin(order[..k] + [order[k]], order[k + 1..]);
    SplitAt(order, k);
  }

  /** One entry more or less, in either pool. */
  lemma ChargeAt(order: seq<LRUHandle>, k: nat, low: nat)
    requires k < |order| && low <= |order|
    ensures Charge(order) == Charge(Without(order, k)) + order[k].charge
    ensures k < low ==> Without(order, k)[low - 1..] == order[low..]
    ensures k >= low ==> Charge(order[low..]) == Charge(Without(order, k)[low..]) + order[k].charge
  {
    hide Charge, Without;
    ChargeMiddle(order, k);
    WithoutTail(order, k, low);
    if k >= low {
      ChargeMiddle(order[low..], k - low);
    }
  }

  lemma AtEnd(order: seq<LRUHandle>, low: nat, e: LRUHandle)
    requires low <= |order|
    ensures With(order, |order|, e)[low..] == order[low..] + [e]
  {
  }

  lemma ChargeWith(order: seq<LRUHandle>, k: nat, low: nat, e: LRUHandle)
    requires k <= |order| && low <= |order|
    ensures Charge(With(order, k, e)) == Charge(order) + e.charge
    ensures k == |order| ==> Charge(With(order, k, e)[low..]) == Charge(order[low..]) + e.charge
    ensures With(order, k, e)[k + 1..] == order[k..]
  {
    hide Charge;
    ChargeOne(e);
    ChargeJoin(order[..k], order[k..]);
    ChargeJoin(order[..k], [e]);
    ChargeJoin(order[..k] + [e], order[k..]);
    assert order == order[..k] + order[k..];
    if k == |order| {
      ChargeJoin(order[low..], [e]);
      AtEnd(order, low, e);
    }
  }

  /** The pool's charge is positive only if it has an entry. */
  lemma HighCharge(order: seq<LRUHandle>, low: nat)
    requires low < |order|
    ensures Charge(order[low..]) == order[low].charge + Charge(order[low + 1..])
  {
    ChargeMiddle(order[low..], 0);
    assert Without(order[low..], 0) == order[low + 1..];
  }

  // ----- entries that leave

  /** The list without some entries, in the same order. */
  function Drop(order: seq<LRUHandle>, gone: set<LRUHandle>): seq<LRUHandle>
  {
    if order == [] then []
    else
      var n := |order| - 1;
      Drop(order[..n], gone) + if order[n] in gone then [] else [order[n]]
  }

  lemma {:induction false} DropNone(order: seq<LRUHandle>, gone: set<LRUHandle>)
    requires forall h :: h in order ==> h !in gone
    ensures Drop(order, gone) == order
  {
    if order != [] {
      var n := |order| - 1;
      assert order[..n] + [order[n]] == order;
      DropNone(order[..n], gone);
    }
  }

  lemma {:induction false} DropIn(order: seq<LRUHandle>, gone: set<LRUHandle>)
    ensures forall h :: h in Drop(order, gone) ==> h in order && h !in gone
  {
    if order != [] {
      var n := |order| - 1;
      DropIn(order[..n], gone);
      assert order[..n] + [order[n]] == order;
    }
  }

  lemma {:induction false} DropSame(order: seq<LRUHandle>, a: set<LRUHandle>, b: set<LRUHandle>)
    requires forall h :: h in order ==> (h in a <==> h in b)
    ensures Drop(order, a) == Drop(order, b)
  {
    if order != [] {
      var n := |order| - 1;
      assert order[..n] + [order[n]] == order;
      DropSame(order[..n], a, b);
    }
  }

  lemma {:induction false} DropJoin(x: seq<LRUHandle>, y: seq<LRUHandle>, gone: set<LRUHandle>)
    ensures Drop(x + y, gone) == Drop(x, gone) + Drop(y, gone)
  {
    if y == [] {
      assert x + y == x;
    } else {
      var n := |y| - 1;
      assert (x + y)[..|x| + n] == x + y[..n];
      DropJoin(x, y[..n], gone);
    }
  }

  lemma {:induction false} DropAll(order: seq<LRUHandle>, gone: set<LRUHandle>)
    requires forall h :: h in order ==> h in gone
    ensures Drop(order, gone) == []
  {
    if order != [] {
      var n := |order| - 1;
      assert order[..n] + [order[n]] == order;
      DropAll(order[..n], gone);
    }
  }

  lemma OnlyAt(order: seq<LRUHandle>, k: nat)
    requires Distinct(order) && k < |order|
    ensures order[k] !in order[..k] && order[k] !in order[k + 1..]
  {
  }

  lemma DropWithout(order: seq<LRUHandle>, k: nat)
    requires Distinct(order) && k < |order|
    ensures Without(order, k) == Drop(order, {order[k]})
  {
    hide Drop, Distinct;
    var e := order[k];
    SplitAt(order, k);
    OnlyAt(order, k);
    DropJoin(order[..k] + [e], order[k + 1..], {e});
    DropJoin(order[..k], [e], {e});
    DropNone(order[..k], {e});
    DropNone(order[k + 1..], {e});
    DropAll([e], {e});
    assert order[..k] + [] == order[..k];
  }

  lemma DropWith(order: seq<LRUHandle>, k: nat, e: LRUHandle)
    requires k <= |order| && e !in order
    ensures Drop(With(order, k, e), {e}) == order
  {
    hide Drop;
    assert order == order[..k] + order[k..];
    DropJoin(order[..k] + [e], order[k..], {e});
    DropJoin(order[..k], [e], {e});
    DropNone(order[..k], {e});
    DropNone(order[k..], {e});
    DropAll([e], {e});
    assert order[..k] + [] == order[..k];
  }

  function SetOf(s: seq<LRUHandle>): set<LRUHandle>
  {
    set h | h in s
  }

  lemma DropPrefix(a: seq<LRUHandle>, b: seq<LRUHandle>)
    requires Distinct(a + b)
    ensures Drop(a + b, SetOf(a)) == b
  {
    hide Drop;
    var gone := SetOf(a);
    DropJoin(a, b, gone);
    DropAll(a, gone);
    forall h | h in b ensures h !in a {
      var j :| 0 <= j < |b| && b[j] == h;
      assert (a + b)[|a| + j] == h;
      assert forall i :: 0 <= i < |a| ==> (a + b)[i] == a[i];
    }
    DropNone(b, gone);
  }

  lemma {:induction false} DropTwice(order: seq<LRUHandle>, a: set<LRUHandle>, b: set<LRUHandle>)
    ensures Drop(Drop(order, a), b) == Drop(order, a + b)
  {
    if order != [] {
      var n := |order| - 1;
      DropTwice(order[..n], a, b);
      DropJoin(Drop(order[..n], a), if order[n] in a then [] else [order[n]], b);
      if order[n] !in a {
        assert [order[n]][..0] == [];
      }
    }
  }
}
