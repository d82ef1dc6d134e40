/** The LRU cache's hash table: an array of buckets, each a chain of entries. */
module LruTable {
  import opened LruHandles

  ghost predicate PowerOfTwo(n: nat)
  {
    n == 1 || (n > 0 && n % 2 == 0 && PowerOfTwo(n / 2))
  }

  /** Bitwise and. */
  function And(a: nat, b: nat): (r: nat)
    ensures r <= b
  {
    if a == 0 || b == 0 then 0 else 2 * And(a / 2, b / 2) + (a % 2) * (b % 2)
  }

  /** Where an entry belongs: the hash under a mask. */
  function Bucket(hash: nat, length: nat): (b: nat)
    requires length > 0
    ensures b < length
  {
    And(hash, length - 1)
  }

  lemma LowBit(hash: nat, half: nat)
    requires half > 0
    ensures And(hash, 2 * half - 1) == 2 * And(hash / 2, half - 1) + hash % 2
  {
    assert (2 * half - 1) / 2 == half - 1 && (2 * half - 1) % 2 == 1;
  }

  lemma Apart(n: nat, d: int)
    ensures d > 0 ==> n * d >= n
    ensures d < 0 ==> n * d <= 0 - n
  {
  }

  lemma Remainder(x: nat, n: nat, q: nat, r: nat)
    requires r < n && x == n * q + r
    ensures x % n == r
  {
    var d := x / n - q;
    assert n * d == r - x % n;
    Apart(n, d);
  }

  lemma Halves(hash: nat, half: nat)
    requires half > 0
    ensures hash % (2 * half) == 2 * (hash / 2 % half) + hash % 2
  {
    var q, r := hash / 2 / half, hash / 2 % half;
    assert hash == (2 * half) * q + (2 * r + hash % 2);
    Remainder(hash, 2 * half, q, 2 * r + hash % 2);
  }

  /** For the lengths Resize chooses, the mask is the remainder, so every bucket is used. */
  lemma {:induction false} MaskIsRemainder(hash: nat, length: nat)
    requires length > 0 && PowerOfTwo(length)
    ensures Bucket(hash, length) == hash % length
  {
    hide And;
    if length == 1 {
      assert And(hash, 0) <= 0;
    } else {
      var half := length / 2;
      assert length == 2 * half;
      MaskIsRemainder(hash / 2, half);
      LowBit(hash, half);
      Halves(hash, half);
    }
  }

  // ----- buckets against the map they stand for

  predicate Known(entries: map<Id, LRUHandle>, h: LRUHandle)
  {
    h.id in entries && entries[h.id] == h
  }

  /** Bucket `b` holds entries of the map, each in its bucket, none twice. */
  predicate BucketOk(entries: map<Id, LRUHandle>, length: nat, b: nat, c: seq<LRUHandle>)
    requires length > 0
  {
    Distinct(c) && forall i :: 0 <= i < |c| ==> Known(entries, c[i]) && Bucket(c[i].id.hash, length) == b
  }

  /** Every entry of the map is in its bucket. */
  predicate Covered(entries: map<Id, LRUHandle>, chains: seq<seq<LRUHandle>>)
  {
    forall id :: id in entries ==>
      entries[id].id == id && |chains| > 0 && entries[id] in chains[Bucket(id.hash, |chains|)]
  }

  predicate Refines(entries: map<Id, LRUHandle>, chains: seq<seq<LRUHandle>>)
  {
    && (forall b :: 0 <= b < |chains| ==> BucketOk(entries, |chains|, b, chains[b]))
    && Covered(entries, chains)
  }

  ghost function Inside(chains: seq<seq<LRUHandle>>): set<LRUHandle>
  {
    set b, i | 0 <= b < |chains| && 0 <= i < |chains[b]| :: chains[b][i]
  }

  ghost predicate Linked(list: array<LRUHandle?>, chains: seq<seq<LRUHandle>>)
    reads list, Inside(chains)`nextHash
  {
    |chains| == list.Length && forall b :: 0 <= b < |chains| ==> Chain(list[b], chains[b])
  }

  lemma AllKnown(entries: map<Id, LRUHandle>, chains: seq<seq<LRUHandle>>)
    requires Refines(entries, chains)
    ensures Inside(chains) == entries.Values
  {
    hide Bucket;
    forall h | h in Inside(chains) ensures h in entries.Values {
      var b, i :| 0 <= b < |chains| && 0 <= i < |chains[b]| && chains[b][i] == h;
      assert BucketOk(entries, |chains|, b, chains[b]);
      assert Known(entries, chains[b][i]);
    }
    forall h | h in entries.Values ensures h in Inside(chains) {
      var id :| id in entries && entries[id] == h;
      var b := Bucket(id.hash, |chains|);
      var i :| 0 <= i < |chains[b]| && chains[b][i] == h;
    }
  }

  /** A node is in one bucket, and there in one place. */
  lemma OnlyBucket(entries: map<Id, LRUHandle>, chains: seq<seq<LRUHandle>>, b: nat, i: nat)
    requires Refines(entries, chains) && b < |chains| && i < |chains[b]|
    ensures chains[b][i] !in chains[b][i + 1..] && chains[b][i] in entries.Values && Distinct(chains[b])
    ensures forall k :: 0 <= k < |chains| && k != b ==> chains[b][i] !in chains[k]
  {
    hide Bucket;
    assert BucketOk(entries, |chains|, b, chains[b]) && Known(entries, chains[b][i]);
    forall k | 0 <= k < |chains| && k != b ensures chains[b][i] !in chains[k] {
      assert BucketOk(entries, |chains|, k, chains[k]);
    }
  }

  function Put(c: seq<LRUHandle>, i: nat, h: LRUHandle): seq<LRUHandle>
    requires i <= |c|
  {
    c[..i] + ([h] + (if i == |c| then [] else c[i + 1..]))
  }

  lemma PutBucket(entries: map<Id, LRUHandle>, length: nat, b: nat, c: seq<LRUHandle>, i: nat, h: LRUHandle)
    requires length > 0 && BucketOk(entries, length, b, c) && b == Bucket(h.id.hash, length) && h !in entries.Values
    requires i <= |c| && if h.id in entries then i < |c| && c[i] == entries[h.id] else i == |c|
    ensures BucketOk(entries[h.id := h], length, b, Put(c, i, h))
  {
    hide Bucket;
    var d := Put(c, i, h);
    forall j | 0 <= j < |d|
      ensures Known(entries[h.id := h], d[j]) && Bucket(d[j].id.hash, length) == b
      ensures j != i ==> d[j] == c[j] && d[j] != h
    {
      if j != i {
        assert d[j] == c[j] && Known(entries, c[j]) && c[j] in entries.Values;
        assert i < |c| ==> c[i] != c[j];
      }
    }
  }

  lemma StaysIn(c: seq<LRUHandle>, i: nat, x: LRUHandle, d: seq<LRUHandle>)
    requires i < |c| ==> x != c[i]
    requires i < |c| ==> |d| >= |c| - 1 && d[..i] == c[..i] && d[|d| - (|c| - 1 - i)..] == c[i + 1..]
    requires i == |c| ==> |d| >= i && d[..i] == c
    requires i <= |c|
    ensures x in c ==> x in d
  {
    if x in c {
      var k :| 0 <= k < |c| && c[k] == x;
      if k < i {
        assert d[..i][k] == x;
      } else {
        assert d[|d| - (|c| - 1 - i)..][k - i - 1] == c[i + 1..][k - i - 1];
      }
    }
  }

  /** Replacing entry `i` of its bucket, or adding one at the end, is map update. */
  lemma PutRefines(entries: map<Id, LRUHandle>, chains: seq<seq<LRUHandle>>, i: nat, h: LRUHandle)
    requires |chains| > 0 && Refines(entries, chains) && h !in entries.Values
    requires var c := chains[Bucket(h.id.hash, |chains|)];
             i <= |c| && if h.id in entries then i < |c| && c[i] == entries[h.id] else i == |c|
    ensures var b := Bucket(h.id.hash, |chains|);
            Refines(entries[h.id := h], chains[b := Put(chains[b], i, h)])
  {
    hide Bucket;
    var b := Bucket(h.id.hash, |chains|);
    var c := chains[b];
    var entries', chains' := entries[h.id := h], chains[b := Put(c, i, h)];
    assert BucketOk(entries, |chains|, b, c);
    PutBucket(entries, |chains|, b, c, i, h);
    forall b' | 0 <= b' < |chains| && b' != b ensures BucketOk(entries', |chains|, b', chains[b']) {
      assert BucketOk(entries, |chains|, b', chains[b']);
      assert forall j :: 0 <= j < |chains[b']| ==> Known(entries, chains[b'][j]);
    }
    forall id | id in entries' ensures entries'[id].id == id && entries'[id] in chains'[Bucket(id.hash, |chains|)] {
      if id == h.id {
        assert Put(c, i, h)[i] == h;
      } else {
        StaysIn(c, i, entries[id], Put(c, i, h));
      }
    }
  }

  lemma DropBucket(entries: map<Id, LRUHandle>, length: nat, b: nat, c: seq<LRUHandle>, i: nat)
    requires length > 0 && BucketOk(entries, length, b, c) && i < |c|
    ensures BucketOk(entries - {c[i].id}, length, b, c[..i] + c[i + 1..])
  {
    hide Bucket;
    var d := c[..i] + c[i + 1..];
    forall j | 0 <= j < |d| ensures Known(entries - {c[i].id}, d[j]) && Bucket(d[j].id.hash, length) == b {
      var k := if j < i then j else j + 1;
      assert d[j] == c[k] && Known(entries, c[k]) && Known(entries, c[i]);
    }
  }

  /** Unlinking entry `i` of its bucket is map removal. */
  lemma DropRefines(entries: map<Id, LRUHandle>, chains: seq<seq<LRUHandle>>, i: nat, id: Id)
    requires |chains| > 0 && Refines(entries, chains) && id in entries
    requires var c := chains[Bucket(id.hash, |chains|)]; i < |c| && c[i] == entries[id]
    ensures var b := Bucket(id.hash, |chains|);
            Refines(entries - {id}, chains[b := chains[b][..i] + chains[b][i + 1..]])
  {
    hide Bucket, Distinct;
    var b := Bucket(id.hash, |chains|);
    var c := chains[b];
    var d := c[..i] + c[i + 1..];
    var entries', chains' := entries - {id}, chains[b := d];
    assert BucketOk(entries, |chains|, b, c);
    DropBucket(entries, |chains|, b, c, i);
    forall b' | 0 <= b' < |chains| && b' != b ensures BucketOk(entries', |chains|, b', chains[b']) {
      assert BucketOk(entries, |chains|, b', chains[b']);
      assert forall j :: 0 <= j < |chains[b']| ==> Known(entries, chains[b'][j]);
    }
    forall x | x in entries' ensures entries'[x].id == x && entries'[x] in chains'[Bucket(x.hash, |chains|)] {
      StaysIn(c, i, entries[x], d);
    }
  }

  /** Pushing an entry at the front of its bucket is map update, too. */
  lemma PushRefines(part: map<Id, LRUHandle>, chains: seq<seq<LRUHandle>>, h: LRUHandle)
    requires |chains| > 0 && Refines(part, chains) && h.id !in part
    ensures var b := Bucket(h.id.hash, |chains|); Refines(part[h.id := h], chains[b := [h] + chains[b]])
  {
    hide Bucket;
    var b := Bucket(h.id.hash, |chains|);
    var d := [h] + chains[b];
    var part', chains' := part[h.id := h], chains[b := d];
    assert BucketOk(part, |chains|, b, chains[b]);
    forall j | 0 <= j < |d| ensures Known(part', d[j]) && Bucket(d[j].id.hash, |chains|) == b {
      if j > 0 {
        assert d[j] == chains[b][j - 1] && Known(part, chains[b][j - 1]);
      }
    }
    assert Distinct(d) by {
      assert forall j :: 0 < j < |d| ==> Known(part, d[j]);
    }
    forall b' | 0 <= b' < |chains| && b' != b ensures BucketOk(part', |chains|, b', chains[b']) {
      assert BucketOk(part, |chains|, b', chains[b']);
      assert forall j :: 0 <= j < |chains[b']| ==> Known(part, chains[b'][j]);
    }
  }

  /** The slot before place `i` of a bucket is outside what follows that place. */
  lemma SlotReady(entries: map<Id, LRUHandle>, chains: seq<seq<LRUHandle>>, b: nat, i: nat)
    requires Refines(entries, chains) && b < |chains| && i <= |chains[b]|
    ensures Distinct(chains[b])
    ensures i > 0 ==> chains[b][i - 1] in entries.Values
    ensures 0 < i < |chains[b]| ==> chains[b][i - 1] !in chains[b][i + 1..]
    ensures i > 0 ==> forall k :: 0 <= k < |chains| && k != b ==> chains[b][i - 1] !in chains[k]
  {
    assert BucketOk(entries, |chains|, b, chains[b]);
    if i > 0 {
      OnlyBucket(entries, chains, b, i - 1);
    }
  }

  lemma Outside(entries: map<Id, LRUHandle>, chains: seq<seq<LRUHandle>>, h: LRUHandle)
    requires Refines(entries, chains) && h !in entries.Values
    ensures forall k :: 0 <= k < |chains| ==> h !in chains[k]
  {
    forall k | 0 <= k < |chains| ensures h !in chains[k] {
      assert BucketOk(entries, |chains|, k, chains[k]);
      assert forall j :: 0 <= j < |chains[k]| ==> Known(entries, chains[k][j]);
    }
  }

  lemma LinkedAt(list: array<LRUHandle?>, chains: seq<seq<LRUHandle>>, b: nat, i: nat)
    requires Linked(list, chains) && b < |chains| && i < |chains[b]|
    ensures |chains| == list.Length && Chain(chains[b][i].nextHash, chains[b][i + 1..])
  {
    ChainAt(list[b], chains[b], i);
  }

  lemma SmallerMap(entries: map<Id, LRUHandle>, id: Id)
    requires id in entries
    ensures |entries - {id}| == |entries| - 1
  {
    assert (entries - {id}).Keys == entries.Keys - {id};
  }

  predicate ById(entries: map<Id, LRUHandle>)
  {
    forall id :: id in entries ==> entries[id].id == id
  }

  lemma ValuesWithout(entries: map<Id, LRUHandle>, id: Id)
    requires ById(entries) && id in entries
    ensures (entries - {id}).Values == entries.Values - {entries[id]}
  {
    forall h | h in entries.Values - {entries[id]} ensures h in (entries - {id}).Values {
      var x :| x in entries && entries[x] == h;
      assert x in entries - {id};
    }
  }

  lemma ValuesWith(entries: map<Id, LRUHandle>, h: LRUHandle)
    requires ById(entries)
    ensures entries[h.id := h].Values ==
            entries.Values - (if h.id in entries then {entries[h.id]} else {}) + {h}
  {
    var entries' := entries[h.id := h];
    assert h.id in entries';
    forall x | x in entries.Values - (if h.id in entries then {entries[h.id]} else {}) ensures x in entries'.Values {
      var id :| id in entries && entries[id] == x;
      assert id in entries' && entries'[id] == x;
    }
  }

  lemma EmptyTable(list: array<LRUHandle?>, chains: seq<seq<LRUHandle>>)
    requires |chains| == list.Length && forall b :: 0 <= b < |chains| ==> list[b] == null && chains[b] == []
    ensures Linked(list, chains) && Refines(map[], chains)
  {
  }

  lemma Unlinked(list: array<LRUHandle?>, chains: seq<seq<LRUHandle>>)
    requires Linked(list, chains)
    ensures |chains| == list.Length && forall b :: 0 <= b < |chains| ==> Chain(list[b], chains[b])
  {
  }

  /** The entries of the buckets below `i`, and no others, are in `part`. */
  predicate MovedBelow(entries: map<Id, LRUHandle>, chains: seq<seq<LRUHandle>>, part: map<Id, LRUHandle>, i: nat)
  {
    && (forall id :: id in part ==> id in entries && part[id] == entries[id])
    && (forall b, k :: 0 <= b < |chains| && 0 <= k < |chains[b]| ==> (chains[b][k].id in part <==> b < i))
  }

  lemma NothingMoved(entries: map<Id, LRUHandle>, chains: seq<seq<LRUHandle>>)
    ensures MovedBelow(entries, chains, map[], 0)
  {
  }

  lemma BucketAlone(entries: map<Id, LRUHandle>, chains: seq<seq<LRUHandle>>, i: nat)
    requires Refines(entries, chains) && i < |chains|
    ensures forall b, h :: 0 <= b < |chains| && b != i && h in chains[i] ==> h !in chains[b]
    ensures forall h :: h in chains[i] ==> h in entries.Values
  {
    hide Refines;
    forall h | h in chains[i]
      ensures h in entries.Values && forall b :: 0 <= b < |chains| && b != i ==> h !in chains[b]
    {
      var k :| 0 <= k < |chains[i]| && chains[i][k] == h;
      OnlyBucket(entries, chains, i, k);
    }
  }

  lemma BucketIds(entries: map<Id, LRUHandle>, chains: seq<seq<LRUHandle>>, i: nat)
    requires Refines(entries, chains) && i < |chains|
    ensures forall j, k :: 0 <= j < k < |chains[i]| ==> chains[i][j].id != chains[i][k].id
    ensures forall k :: 0 <= k < |chains[i]| ==> Known(entries, chains[i][k])
  {
    assert BucketOk(entries, |chains|, i, chains[i]);
    forall j, k | 0 <= j < k < |chains[i]| ensures chains[i][j].id != chains[i][k].id {
      assert Known(entries, chains[i][j]) && Known(entries, chains[i][k]);
    }
  }

  ghost function Extend(part: map<Id, LRUHandle>, c: seq<LRUHandle>): map<Id, LRUHandle>
  {
    if c == [] then part else Extend(part, c[..|c| - 1])[c[|c| - 1].id := c[|c| - 1]]
  }

  lemma {:induction false} Extended(part: map<Id, LRUHandle>, c: seq<LRUHandle>, id: Id)
    requires id in Extend(part, c)
    ensures || (id in part && Extend(part, c)[id] == part[id])
            || (Extend(part, c)[id].id == id && Extend(part, c)[id] in c)
  {
    if c != [] && c[|c| - 1].id != id {
      Extended(part, c[..|c| - 1], id);
    }
  }

  /** An entry of the bucket is not among those before it. */
  lemma NotYet(part: map<Id, LRUHandle>, c: seq<LRUHandle>, k: nat)
    requires k < |c| && c[k].id !in part && forall i, j :: 0 <= i < j < |c| ==> c[i].id != c[j].id
    ensures c[k].id !in Extend(part, c[..k]) && c[k] !in c[k + 1..]
    ensures Extend(part, c[..k + 1]) == Extend(part, c[..k])[c[k].id := c[k]]
  {
    assert c[..k + 1][..k] == c[..k];
    if c[k].id in Extend(part, c[..k]) {
      Extended(part, c[..k], c[k].id);
    }
  }

  lemma {:induction false} PartSize(part: map<Id, LRUHandle>, c: seq<LRUHandle>)
    requires forall j, k :: 0 <= j < k < |c| ==> c[j].id != c[k].id
    requires forall k :: 0 <= k < |c| ==> c[k].id !in part
    ensures |Extend(part, c)| == |part| + |c|
  {
    if c != [] {
      var n := |c| - 1;
      PartSize(part, c[..n]);
      NotYet(part, c, n);
    }
  }

  lemma {:induction false} ExtendKeeps(part: map<Id, LRUHandle>, c: seq<LRUHandle>, id: Id)
    requires id in part || exists k :: 0 <= k < |c| && c[k].id == id
    ensures id in Extend(part, c)
  {
    if c != [] && c[|c| - 1].id != id {
      var d := c[..|c| - 1];
      if id !in part {
        var k :| 0 <= k < |c| && c[k].id == id;
        assert d[k].id == id;
      }
      ExtendKeeps(part, d, id);
    }
  }

  lemma BucketMoves(entries: map<Id, LRUHandle>, chains: seq<seq<LRUHandle>>, part: map<Id, LRUHandle>, i: nat)
    requires Refines(entries, chains) && MovedBelow(entries, chains, part, i) && i < |chains|
    ensures var c := chains[i];
            && (forall j, k :: 0 <= j < k < |c| ==> c[j].id != c[k].id)
            && (forall k :: 0 <= k < |c| ==> c[k].id !in part)
            && MovedBelow(entries, chains, Extend(part, c), i + 1) && |Extend(part, c)| == |part| + |c|
  {
    hide Refines, Extend;
    var c := chains[i];
    BucketIds(entries, chains, i);
    forall id | id in Extend(part, c) ensures id in entries && Extend(part, c)[id] == entries[id] {
      Extended(part, c, id);
    }
    forall b, k | 0 <= b < |chains| && 0 <= k < |chains[b]|
      ensures chains[b][k].id in Extend(part, c) <==> b < i + 1
    {
      BucketIds(entries, chains, b);
      if b <= i {
        ExtendKeeps(part, c, chains[b][k].id);
      } else if chains[b][k].id in Extend(part, c) {
        Extended(part, c, chains[b][k].id);
        OnlyBucket(entries, chains, b, k);
      }
    }
    PartSize(part, c);
  }

  lemma AllMoved(entries: map<Id, LRUHandle>, chains: seq<seq<LRUHandle>>, part: map<Id, LRUHandle>)
    requires Refines(entries, chains) && MovedBelow(entries, chains, part, |chains|)
    ensures part == entries
  {
    hide Bucket;
    forall id | id in entries ensures id in part {
      var b := Bucket(id.hash, |chains|);
      var k :| 0 <= k < |chains[b]| && chains[b][k] == entries[id];
    }
  }

  function Slot(h: LRUHandle, list: array<LRUHandle?>): (b: nat)
    requires list.Length > 0
    ensures b == Bucket(h.id.hash, list.Length) && b < list.Length
  {
    Bucket(h.id.hash, list.Length)
  }

  lemma Strange(part: map<Id, LRUHandle>, chains: seq<seq<LRUHandle>>, h: LRUHandle)
    requires Refines(part, chains) && h.id !in part
    ensures forall k :: 0 <= k < |chains| ==> h !in chains[k]
  {
    assert h !in part.Values;
    Outside(part, chains, h);
  }

  /** The body of Resize's inner loop: moves one entry to the new array. */
  method MoveOne(h: LRUHandle, list: array<LRUHandle?>, ghost chains: seq<seq<LRUHandle>>,
                 ghost part: map<Id, LRUHandle>)
    returns (ghost chains': seq<seq<LRUHandle>>)
    requires |chains| > 0 && Linked(list, chains) && Refines(part, chains) && h.id !in part
    modifies list, h`nextHash
    ensures |chains'| == |chains| && Linked(list, chains') && Refines(part[h.id := h], chains')
  {
    hide Refines, Bucket;
    var b := Slot(h, list);
    PushRefines(part, chains, h);
    Strange(part, chains, h);
    ghost var before := list[..];
    h.nextHash := list[b];
    list[b] := h;
    ghost var d := [h] + chains[b];
    assert Chain(before[b], chains[b]);
    assert d[1..] == chains[b];
    chains' := chains[b := d];
    forall k | 0 <= k < |chains| ensures Chain(list[k], chains'[k]) {
      assert Chain(before[k], chains[k]);
    }
  }

  lemma NoIds(part: map<Id, LRUHandle>, c: seq<LRUHandle>)
    ensures Extend(part, c[..0]) == part
  {
  }

  lemma ChainStep(h: LRUHandle, c: seq<LRUHandle>, k: nat)
    requires k <= |c| && Chain(h, c[k..])
    ensures k < |c| && h == c[k] && Chain(h.nextHash, c[k + 1..])
  {
    assert c[k..][0] == c[k] && c[k..][1..] == c[k + 1..];
  }

  lemma ChainEnd(c: seq<LRUHandle>, k: nat)
    requires k <= |c| && Chain(null, c[k..])
    ensures k == |c|
  {
  }

  /** Resize's inner loop: moves the bucket starting at `head`. */
  method MoveChain(head: LRUHandle?, list: array<LRUHandle?>, ghost c: seq<LRUHandle>,
                   ghost chains: seq<seq<LRUHandle>>, ghost part: map<Id, LRUHandle>)
    returns (count: nat, ghost chains': seq<seq<LRUHandle>>, ghost part': map<Id, LRUHandle>)
    requires |chains| > 0 && Linked(list, chains) && Refines(part, chains) && Chain(head, c)
    requires forall k :: 0 <= k < |c| ==> c[k].id !in part
    requires forall j, k :: 0 <= j < k < |c| ==> c[j].id != c[k].id
    modifies list, c`nextHash
    ensures |chains'| == |chains| && Linked(list, chains') && Refines(part', chains')
    ensures count == |c| && part' == Extend(part, c)
  {
    hide Refines, Linked, Chain, Extend;
    var h := head;
    count, chains', part' := 0, chains, part;
    NoIds(part, c);
    assert c[0..] == c;
    while h != null
      invariant count <= |c| && Chain(h, c[count..])
      invariant |chains'| == |chains| && Linked(list, chains') && Refines(part', chains')
      invariant part' == Extend(part, c[..count])
      decreases |c| - count
    {
      var next := h.nextHash;
      ChainStep(h, c, count);
      NotYet(part, c, count);
      chains' := MoveOne(h, list, chains', part');
      part' := part'[h.id := h];
      h, count := next, count + 1;
    }
    ChainEnd(c, count);
    assert c[..count] == c;
  }

  class LRUHandleTable {
    var list: array<LRUHandle?>
    var elems: nat
    ghost var chains: seq<seq<LRUHandle>>
    ghost var entries: map<Id, LRUHandle>

    ghost predicate Stored()
      reads this, list, entries.Values`nextHash
    {
      && elems == |entries| && Refines(entries, chains)
      && Inside(chains) == entries.Values && Linked(list, chains)
    }

    ghost predicate Valid()
      reads this, list, entries.Values`nextHash
    {
      Stored() && list.Length > 0 && PowerOfTwo(list.Length) && elems <= list.Length
    }

    lemma ValidById()
      requires Valid()
      ensures ById(entries)
    {
    }

    /** FindPointer: the slot is `list[b]`, or `prev.nextHash` when `prev` is not null. */
    method FindPointer(id: Id) returns (b: nat, prev: LRUHandle?, found: LRUHandle?, ghost i: nat)
      requires Valid()
      ensures b == Bucket(id.hash, list.Length) && b < |chains| == list.Length && i <= |chains[b]|
      ensures prev == if i == 0 then null else chains[b][i - 1]
      ensures found == if i == |chains[b]| then null else chains[b][i]
      ensures found == if id in entries then entries[id] else null
      ensures found != null ==> found.id == id
    {
      b := Bucket(id.hash, list.Length);
      prev, found, i := null, list[b], 0;
      ghost var c := chains[b];
      assert BucketOk(entries, |chains|, b, c) && (id in entries ==> entries[id] in c);
      assert c[0..] == c;
      while found != null && found.id != id
        invariant i <= |c| && Chain(found, c[i..])
        invariant prev == if i == 0 then null else c[i - 1]
        invariant forall j :: 0 <= j < i ==> c[j].id != id
        decreases |c| - i
      {
        prev, found, i := found, found.nextHash, i + 1;
        assert c[i - 1..][1..] == c[i..];
      }
      if found != null {
        assert c[i..][0] == c[i] && Known(entries, c[i]);
      }
    }

    /** Assigns the slot that FindPointer found, so that the table stands for `entries'`. */
    method SetSlot(b: nat, prev: LRUHandle?, x: LRUHandle?, ghost i: nat, ghost tail: seq<LRUHandle>,
                   ghost entries': map<Id, LRUHandle>)
      requires Linked(list, chains) && b < list.Length && i <= |chains[b]|
      requires prev == if i == 0 then null else chains[b][i - 1]
      requires Distinct(chains[b]) && Chain(x, tail)
      requires prev != null ==> prev !in tail && forall k :: 0 <= k < |chains| && k != b ==> prev !in chains[k]
      requires Refines(entries', chains[b := chains[b][..i] + tail])
      modifies list, (if prev == null then {} else {prev})`nextHash, this`chains, this`entries
      ensures entries == entries' && Refines(entries, chains)
      ensures Inside(chains) == entries.Values && Linked(list, chains)
    {
      hide Refines, Inside;
      ghost var c := chains[b];
      ghost var before := list[..];
      ChainPointers(list[b], c);
      if prev == null {
        list[b] := x;
      } else {
        prev.nextHash := x;
      }
      assert Chain(x, tail);
      forall k | 0 <= k < i - 1 ensures c[k].nextHash == c[k + 1] {
        assert c[k + 1..][0] == c[k + 1];
      }
      ChainJoin(list[b], c, i, x, tail);
      forall k | 0 <= k < |chains| && k != b ensures Chain(list[k], chains[k]) {
        assert list[k] == before[k];
      }
      chains := chains[b := c[..i] + tail];
      entries := entries';
      AllKnown(entries, chains);
    }

    method Lookup(id: Id) returns (h: LRUHandle?)
      requires Valid()
      ensures h == if id in entries then entries[id] else null
    {
      var b, prev;
      ghost var i;
      b, prev, h, i := FindPointer(id);
    }

    /** The new size: the least power of two from 16 on with a load of at most two thirds. */
    method NewLength() returns (n: nat)
      ensures n >= 16 && PowerOfTwo(n) && 2 * n >= 3 * elems && (n == 16 || n < 3 * elems)
    {
      n := 16;
      assert PowerOfTwo(16) by { assert PowerOfTwo(8) by { assert PowerOfTwo(4); } }
      while 2 * n < 3 * elems
        invariant n >= 16 && PowerOfTwo(n) && (n == 16 || n < 3 * elems)
      {
        n := n * 2;
      }
    }

    /** One round of Resize's outer loop. */
    method MoveBucket(i: nat, newList: array<LRUHandle?>, ghost newChains: seq<seq<LRUHandle>>,
                      ghost part: map<Id, LRUHandle>)
      returns (n: nat, ghost newChains': seq<seq<LRUHandle>>, ghost part': map<Id, LRUHandle>)
      requires newList != list && i < |chains| == list.Length && Refines(entries, chains)
      requires 0 < |newChains| == newList.Length && Linked(newList, newChains) && Refines(part, newChains)
      requires MovedBelow(entries, chains, part, i)
      requires forall b :: i <= b < |chains| ==> Chain(list[b], chains[b])
      modifies newList, entries.Values`nextHash
      ensures |newChains'| == newList.Length && Linked(newList, newChains') && Refines(part', newChains')
      ensures MovedBelow(entries, chains, part', i + 1) && |part'| == |part| + n
      ensures forall b :: i < b < |chains| ==> Chain(list[b], chains[b])
    {
      hide Refines, Linked, Chain, MovedBelow;
      BucketMoves(entries, chains, part, i);
      BucketAlone(entries, chains, i);
      ghost var c := chains[i];
      n, newChains', part' := MoveChain(list[i], newList, c, newChains, part);
      forall b | i < b < |chains| ensures Chain(list[b], chains[b]) {
        assert old(Chain(list[b], chains[b]));
        assert forall h :: h in chains[b] ==> h !in c && h.nextHash == old(h.nextHash);
      }
    }

    /** Resize's outer loop. */
    method MoveAll(newList: array<LRUHandle?>) returns (count: nat, ghost newChains: seq<seq<LRUHandle>>)
      requires Stored() && newList != list && newList.Length > 0
      requires forall b :: 0 <= b < newList.Length ==> newList[b] == null
      modifies newList, entries.Values`nextHash
      ensures |newChains| == newList.Length && Linked(newList, newChains) && Refines(entries, newChains)
      ensures count == elems
    {
      hide Refines, Inside, Linked, Chain, MovedBelow;
      newChains := seq(newList.Length, _ => []);
      ghost var part: map<Id, LRUHandle> := map[];
      EmptyTable(newList, newChains);
      Unlinked(list, chains);
      NothingMoved(entries, chains);
      count := 0;
      for i := 0 to list.Length
        invariant |newChains| == newList.Length && Linked(newList, newChains) && Refines(part, newChains)
        invariant MovedBelow(entries, chains, part, i) && count == |part|
        invariant forall b :: i <= b < |chains| ==> Chain(list[b], chains[b])
      {
        var n;
        n, newChains, part := MoveBucket(i, newList, newChains, part);
        count := count + n;
      }
      AllMoved(entries, chains, part);
    }

    method Resize()
      requires Stored()
      modifies this`list, this`chains, entries.Values`nextHash
      ensures Valid() && entries == old(entries) && fresh(list)
      ensures list.Length >= 16 && 2 * list.Length >= 3 * elems
    {
      hide Refines, Inside, Linked, PowerOfTwo;
      var newLength := NewLength();
      var newList := new LRUHandle?[newLength](_ => null);
      ghost var newChains;
      var count;
      count, newChains := MoveAll(newList);
      assert elems == count;
      list, chains := newList, newChains;
      AllKnown(entries, chains);
    }

    constructor ()
      ensures Valid() && entries == map[] && fresh(list)
    {
      list := new LRUHandle?[0];
      elems, chains, entries := 0, [], map[];
      new;
      EmptyTable(list, chains);
      AllKnown(entries, chains);
      Resize();
    }

    /** Puts `h` where FindPointer found an entry to replace, or the end of the bucket. */
    method Link(b: nat, prev: LRUHandle?, found: LRUHandle?, h: LRUHandle, ghost i: nat)
      requires Valid() && h !in entries.Values
      requires b == Bucket(h.id.hash, list.Length) && b < |chains| == list.Length && i <= |chains[b]|
      requires prev == if i == 0 then null else chains[b][i - 1]
      requires found == if i == |chains[b]| then null else chains[b][i]
      requires found == if h.id in entries then entries[h.id] else null
      modifies this`chains, this`entries, list, entries.Values`nextHash, h`nextHash
      ensures entries == old(entries)[h.id := h] && Refines(entries, chains)
      ensures Inside(chains) == entries.Values && Linked(list, chains)
    {
      hide Refines, Inside, Distinct, Bucket, PowerOfTwo;
      ghost var c := chains[b];
      ghost var rest := if i == |c| then [] else c[i + 1..];
      PutRefines(entries, chains, i, h);
      SlotReady(entries, chains, b, i);
      Outside(entries, chains, h);
      if found != null {
        ChainAt(list[b], c, i);
      }
      h.nextHash := if found == null then null else found.nextHash;
      assert ([h] + rest)[1..] == rest;
      SetSlot(b, prev, h, i, [h] + rest, entries[h.id := h]);
    }

    method Insert(h: LRUHandle) returns (replaced: LRUHandle?)
      requires Valid() && h !in entries.Values
      modifies this, list, entries.Values`nextHash, h`nextHash
      ensures Valid() && entries == old(entries)[h.id := h] && (list == old(list) || fresh(list))
      ensures replaced == if h.id in old(entries) then old(entries)[h.id] else null
    {
      hide Refines, Inside, Linked, Bucket, PowerOfTwo;
      var b, prev;
      ghost var i;
      b, prev, replaced, i := FindPointer(h.id);
      Link(b, prev, replaced, h, i);
      if replaced == null {
        elems := elems + 1;
        if elems > list.Length {
          Resize();
        }
      }
    }

    /** Unlinks entry `i` of bucket `b`. */
    method Unlink(b: nat, prev: LRUHandle?, h: LRUHandle, ghost i: nat)
      requires Valid() && b == Bucket(h.id.hash, list.Length) && b < |chains| && i < |chains[b]|
      requires prev == if i == 0 then null else chains[b][i - 1]
      requires h == chains[b][i] && h.id in entries && entries[h.id] == h
      modifies this`elems, this`chains, this`entries, list, entries.Values`nextHash
      ensures Valid() && entries == old(entries) - {h.id}
    {
      hide Refines, Inside, Linked, Chain, Distinct, Bucket, PowerOfTwo;
      LinkedAt(list, chains, b, i);
      SlotReady(entries, chains, b, i);
      DropRefines(entries, chains, i, h.id);
      SmallerMap(entries, h.id);
      SetSlot(b, prev, h.nextHash, i, chains[b][i + 1..], entries - {h.id});
      elems := elems - 1;
    }

    method Remove(id: Id) returns (result: LRUHandle?)
      requires Valid()
      modifies this`elems, this`chains, this`entries, list, entries.Values`nextHash
      ensures Valid() && entries == old(entries) - {id}
      ensures result == if id in old(entries) then old(entries)[id] else null
    {
      hide Stored, Bucket, PowerOfTwo;
      var b, prev;
      ghost var i;
      b, prev, result, i := FindPointer(id);
      if result == null {
        assert entries - {id} == entries;
      } else {
        Unlink(b, prev, result, i);
      }
    }
  }
}
