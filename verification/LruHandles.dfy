/** Entries of the LRU cache and the two linked structures threaded through them. */
module LruHandles {
  /** A key together with its hash. */
  datatype Id = Id(key: int, hash: nat)

  class LRUHandle {
    const id: Id
    const charge: nat
    const isHighPri: bool
    var nextHash: LRUHandle?
    var next: LRUHandle?
    var prev: LRUHandle?
    var refs: nat
    var inCache: bool
    var inHighPriPool: bool
    var hasHit: bool

    constructor (id: Id, charge: nat, isHighPri: bool, refs: nat)
      ensures this.id == id && this.charge == charge && this.isHighPri == isHighPri && this.refs == refs
      ensures nextHash == null && next == null && prev == null
      ensures inCache && !inHighPriPool && !hasHit
    {
      this.id, this.charge, this.isHighPri, this.refs := id, charge, isHighPri, refs;
      nextHash, next, prev := null, null, null;
      inCache, inHighPriPool, hasHit := true, false, false;
    }
  }

  predicate Distinct<T(==)>(s: seq<T>)
  {
    forall i, j :: 0 <= i < j < |s| ==> s[i] != s[j]
  }

  // ----- a bucket: a list through `nextHash` that ends in null

  function First(c: seq<LRUHandle>): LRUHandle?
  {
    if c == [] then null else c[0]
  }

  ghost predicate Chain(h: LRUHandle?, c: seq<LRUHandle>)
    reads c`nextHash
  {
    if c == [] then h == null
    else h == c[0] && Chain(c[0].nextHash, c[1..])
  }

  lemma {:induction false} ChainAt(h: LRUHandle?, c: seq<LRUHandle>, i: nat)
    requires Chain(h, c) && i < |c|
    ensures Chain(c[i], c[i..]) && Chain(c[i].nextHash, c[i + 1..])
    ensures c[i].nextHash == First(c[i + 1..])
  {
    if i > 0 {
      ChainAt(c[0].nextHash, c[1..], i - 1);
      assert c[1..][i - 1..] == c[i..] && c[1..][i..] == c[i + 1..];
    }
  }

  /** The same list, pointer by pointer. */
  ghost predicate Pointers(h: LRUHandle?, c: seq<LRUHandle>)
    reads c`nextHash
  {
    h == First(c) && forall i :: 0 <= i < |c| ==> c[i].nextHash == First(c[i + 1..])
  }

  lemma ChainPointers(h: LRUHandle?, c: seq<LRUHandle>)
    requires Chain(h, c)
    ensures Pointers(h, c)
  {
    forall i | 0 <= i < |c| ensures c[i].nextHash == First(c[i + 1..]) {
      ChainAt(h, c, i);
    }
  }

  lemma {:induction false} PointersChain(h: LRUHandle?, c: seq<LRUHandle>)
    requires Pointers(h, c)
    ensures Chain(h, c)
  {
    if c != [] {
      forall i | 0 <= i < |c[1..]| ensures c[1..][i].nextHash == First(c[1..][i + 1..]) {
        assert c[1..][i] == c[i + 1] && c[1..][i + 1..] == c[i + 2..];
      }
      PointersChain(c[0].nextHash, c[1..]);
    }
  }

  /** The first `i` nodes followed by another list. */
  lemma ChainJoin(h: LRUHandle?, c: seq<LRUHandle>, i: nat, x: LRUHandle?, tail: seq<LRUHandle>)
    requires i <= |c| && Chain(x, tail)
    requires h == if i == 0 then x else c[0]
    requires forall k :: 0 <= k < i - 1 ==> c[k].nextHash == c[k + 1]
    requires i > 0 ==> c[i - 1].nextHash == x
    ensures Chain(h, c[..i] + tail)
  {
    var d := c[..i] + tail;
    ChainPointers(x, tail);
    forall k | 0 <= k < |d| ensures d[k].nextHash == First(d[k + 1..]) {
      if k + 1 < i {
        assert d[k] == c[k] && d[k + 1..][0] == d[k + 1] == c[k + 1];
      } else if k + 1 == i {
        assert d[k] == c[k] && c[k].nextHash == x;
        assert d[k + 1..] == tail && x == First(tail);
      } else {
        assert d[k] == tail[k - i] && d[k + 1..] == tail[k - i + 1..];
        assert tail[k - i].nextHash == First(tail[k - i + 1..]);
      }
    }
    PointersChain(h, d);
  }
}
