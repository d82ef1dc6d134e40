/** Versioned records, what a read at a sequence number sees, and how a read
    reacts when one record of a stream is dropped or rewritten. */
module Records {
  datatype Option<+T> = None | Some(value: T)

  /** kMaxSequenceNumber: the sequence number a read at the tip uses. */
  const MAX_SEQUENCE: nat := 0xFF_FFFF_FFFF_FFFF

  datatype Kind = Value | Deletion | SingleDeletion

  /** An internal key (user key, sequence, type) with its value. */
  datatype Record = Record(key: int, seqno: nat, kind: Kind, value: string)

  datatype Lookup = Miss | Gone | Found(value: string)

  /** The first record of the stream for `key` that is visible at `at`. */
  function Look(s: seq<Record>, key: int, at: nat): Lookup
  {
    if s == [] then Miss
    else if s[0].key == key && s[0].seqno <= at then
      if s[0].kind.Value? then Found(s[0].value) else Gone
    else Look(s[1..], key, at)
  }

  /** What the user is told: a tombstone and no record at all read alike. */
  function Get(s: seq<Record>, key: int, at: nat): Option<string>
  {
    match Look(s, key, at)
    case Found(v) => Some(v)
    case _ => None
  }

  /** Internal key order: user key ascending, then sequence descending. */
  predicate Before(a: Record, b: Record)
  {
    a.key < b.key || (a.key == b.key && a.seqno > b.seqno)
  }

  predicate Sorted(s: seq<Record>)
  {
    forall i, j :: 0 <= i < j < |s| ==> Before(s[i], s[j])
  }

  /** The sequence numbers somebody can read at: a live snapshot or the tip. */
  predicate Observes(snapshots: seq<nat>, at: nat)
  {
    at in snapshots || at == MAX_SEQUENCE
  }

  ghost predicate SameReads(a: seq<Record>, b: seq<Record>, snapshots: seq<nat>)
  {
    forall key, at :: Observes(snapshots, at) ==> Get(a, key, at) == Get(b, key, at)
  }

  /** `stripe` is the earliest observer that sees a record written at `seqno`. */
  predicate IsStripe(snapshots: seq<nat>, seqno: nat, stripe: nat)
  {
    && seqno <= stripe
    && Observes(snapshots, stripe)
    && forall t :: t in snapshots && seqno <= t ==> stripe <= t
  }

  predicate NoKey(s: seq<Record>, key: int)
  {
    forall i :: 0 <= i < |s| ==> s[i].key != key
  }

  lemma {:induction false} LookConcat(a: seq<Record>, b: seq<Record>, key: int, at: nat)
    ensures Look(a + b, key, at) == if Look(a, key, at).Miss? then Look(b, key, at) else Look(a, key, at)
  {
    if a == [] {
      assert a + b == b;
    } else {
      assert (a + b)[1..] == a[1..] + b;
      LookConcat(a[1..], b, key, at);
    }
  }

  lemma {:induction false} LookNoKey(s: seq<Record>, key: int, at: nat)
    requires NoKey(s, key)
    ensures Look(s, key, at).Miss?
  {
    if s != [] {
      LookNoKey(s[1..], key, at);
    }
  }

  lemma LookAround(a: seq<Record>, r: Record, b: seq<Record>, key: int, at: nat)
    ensures Look(a + [r] + b, key, at) ==
            if !Look(a, key, at).Miss? then Look(a, key, at)
            else if r.key == key && r.seqno <= at then (if r.kind.Value? then Found(r.value) else Gone)
            else Look(b, key, at)
    ensures Look(a + b, key, at) == if Look(a, key, at).Miss? then Look(b, key, at) else Look(a, key, at)
  {
    assert a + [r] + b == a + ([r] + b);
    LookConcat(a, [r] + b, key, at);
    LookConcat(a, b, key, at);
    assert ([r] + b)[1..] == b;
  }

  /** A record that no observer can reach through the newer ones may go. */
  lemma DropHidden(a: seq<Record>, r: Record, b: seq<Record>, snapshots: seq<nat>)
    requires forall at :: Observes(snapshots, at) && r.seqno <= at ==> !Look(a, r.key, at).Miss?
    ensures SameReads(a + [r] + b, a + b, snapshots)
  {
    forall key, at | Observes(snapshots, at) ensures Get(a + [r] + b, key, at) == Get(a + b, key, at) {
      LookAround(a, r, b, key, at);
    }
  }

  /** A tombstone above nothing readable may go. */
  lemma DropTombstone(a: seq<Record>, r: Record, b: seq<Record>, snapshots: seq<nat>)
    requires !r.kind.Value?
    requires forall at :: Observes(snapshots, at) && r.seqno <= at ==> Get(b, r.key, at) == None
    ensures SameReads(a + [r] + b, a + b, snapshots)
  {
    forall key, at | Observes(snapshots, at) ensures Get(a + [r] + b, key, at) == Get(a + b, key, at) {
      LookAround(a, r, b, key, at);
    }
  }

  /** Two records no observer tells apart may be exchanged. */
  lemma Exchange(a: seq<Record>, r: Record, r': Record, b: seq<Record>, snapshots: seq<nat>)
    requires r'.key == r.key && r'.kind == r.kind
    requires forall at :: Observes(snapshots, at) ==> (r.seqno <= at <==> r'.seqno <= at)
    requires r'.value == r.value ||
             forall at :: Observes(snapshots, at) && r.seqno <= at ==> !Look(a, r.key, at).Miss?
    ensures SameReads(a + [r] + b, a + [r'] + b, snapshots)
  {
    forall key, at | Observes(snapshots, at) ensures Get(a + [r] + b, key, at) == Get(a + [r'] + b, key, at) {
      LookAround(a, r, b, key, at);
      LookAround(a, r', b, key, at);
    }
  }

  /** A SingleDelete and the record it cancels may go together when nobody can
      see one without the other and nothing older is readable. */
  lemma DropPair(a: seq<Record>, del: Record, put: Record, b: seq<Record>, snapshots: seq<nat>)
    requires del.key == put.key && !del.kind.Value? && put.seqno <= del.seqno
    requires forall at :: Observes(snapshots, at) && put.seqno <= at ==> del.seqno <= at
    requires forall at :: Observes(snapshots, at) && del.seqno <= at ==> Get(b, del.key, at) == None
    ensures SameReads(a + [del] + ([put] + b), a + b, snapshots)
  {
    assert a + [del] + ([put] + b) == (a + [del]) + [put] + b;
    forall at | Observes(snapshots, at) && put.seqno <= at ensures !Look(a + [del], put.key, at).Miss? {
      LookConcat(a, [del], put.key, at);
    }
    DropHidden(a + [del], put, b, snapshots);
    DropTombstone(a, del, b, snapshots);
  }

  /** Records in the same stripe are seen by the same observers. */
  lemma SameStripe(snapshots: seq<nat>, newer: nat, older: nat, stripe: nat)
    requires older <= newer && IsStripe(snapshots, newer, stripe) && IsStripe(snapshots, older, stripe)
    requires forall t :: t in snapshots ==> t <= MAX_SEQUENCE
    ensures forall at :: Observes(snapshots, at) && older <= at ==> stripe <= at && newer <= at
  {
  }
}
