/** Candidate sync targets, grouped into buckets of related tipsets. */
module SyncBuckets {
  import opened Outcomes
  import opened Tipsets

  /** Tipsets, given by their keys. */
  type Bucket = seq<Key>

  /** Equal, or parent and child in either direction. */
  predicate Related(a: Key, b: Key) {
    a == b || a == Parents(b) || Parents(a) == b
  }

  ghost predicate SameChain(b: Bucket, ts: Key) {
    exists i | 0 <= i < |b| :: Related(ts, b[i])
  }

  function AddTo(b: Bucket, ts: Key): Bucket {
    if ts in b then b else b + [ts]
  }

  /** Position of the first of the heaviest tipsets. */
  function FirstMax(b: Bucket): (k: nat)
    requires |b| > 0
    ensures k < |b|
    ensures forall i | 0 <= i < |b| :: Weight(b[i]) <= Weight(b[k])
    ensures forall i | 0 <= i < k :: Weight(b[i]) < Weight(b[k])
  {
    if |b| == 1 then 0
    else
      var front := b[..|b| - 1];
      var k := FirstMax(front);
      assert forall i | 0 <= i < |front| :: front[i] == b[i];
      if Weight(b[|b| - 1]) > Weight(b[k]) then |b| - 1 else k
  }

  function Heaviest(b: Bucket): (r: Key)
    requires |b| > 0
    ensures r in b && forall ts | ts in b :: Weight(ts) <= Weight(r)
  {
    b[FirstMax(b)]
  }

  /** Heaviest means of the greatest parent weight, as the first block of a tipset gives it. */
  lemma HeaviestByWeight(b: Bucket, ts: Key)
    requires ts in b && forall u | u in b :: u != []
    ensures ts[0].weight <= Heaviest(b)[0].weight
  {
  }

  /** No bucket is empty, holds a tipset twice, or falls apart: every tipset after the first is
      a parent or child of an earlier one. */
  ghost predicate BucketOk(b: Bucket) {
    && |b| > 0
    && (forall i, j | 0 <= i < j < |b| :: b[i] != b[j])
    && (forall j | 0 < j < |b| :: SameChain(b[..j], b[j]))
  }

  /** Buckets start from different tipsets, so each can be told from all others. */
  ghost predicate BucketsOk(bs: seq<Bucket>) {
    && (forall i | 0 <= i < |bs| :: BucketOk(bs[i]))
    && (forall i, j | 0 <= i < j < |bs| :: bs[i][0] != bs[j][0])
  }

  ghost predicate RelatedToAny(bs: seq<Bucket>, ts: Key) {
    exists i | 0 <= i < |bs| :: SameChain(bs[i], ts)
  }

  ghost function FirstRelated(bs: seq<Bucket>, ts: Key): (i: nat)
    requires RelatedToAny(bs, ts)
    ensures i < |bs| && SameChain(bs[i], ts)
    ensures forall j | 0 <= j < i :: !SameChain(bs[j], ts)
  {
    if SameChain(bs[0], ts) then 0
    else
      var rest := bs[1..];
      assert forall k | 0 < k < |bs| :: bs[k] == rest[k - 1];
      var i := FirstRelated(rest, ts);
      i + 1
  }

  /** Insert into the first related bucket, or open a new one. */
  ghost function Insert(bs: seq<Bucket>, ts: Key): seq<Bucket> {
    if RelatedToAny(bs, ts) then
      var i := FirstRelated(bs, ts);
      bs[i := AddTo(bs[i], ts)]
    else bs + [[ts]]
  }

  /** All tipsets held. */
  ghost function Tips(bs: seq<Bucket>): set<Key> {
    set i, ts | 0 <= i < |bs| && ts in bs[i] :: ts
  }

  lemma AddToOk(b: Bucket, ts: Key)
    requires BucketOk(b) && SameChain(b, ts)
    ensures BucketOk(AddTo(b, ts)) && AddTo(b, ts)[0] == b[0]
  {
    if ts !in b {
      var c := b + [ts];
      assert c[..|b|] == b;
      forall j | 0 < j < |c|
        ensures SameChain(c[..j], c[j])
      {
        assert j < |b| ==> c[..j] == b[..j];
      }
    }
  }

  lemma InsertKeepsOrder(bs: seq<Bucket>, ts: Key)
    requires BucketsOk(bs)
    ensures BucketsOk(Insert(bs, ts))
  {
    if RelatedToAny(bs, ts) {
      AddToOk(bs[FirstRelated(bs, ts)], ts);
    } else {
      forall i | 0 <= i < |bs|
        ensures bs[i][0] != ts
      {
        assert bs[i][0] == ts ==> SameChain(bs[i], ts);
      }
      assert BucketOk([ts]);
    }
  }

  lemma InsertKeepsTips(bs: seq<Bucket>, ts: Key)
    ensures Tips(Insert(bs, ts)) == Tips(bs) + {ts}
  {
    var r := Insert(bs, ts);
    var at := if RelatedToAny(bs, ts) then FirstRelated(bs, ts) else |bs|;
    assert ts in r[at];
    assert forall k, t | 0 <= k < |bs| && t in bs[k] :: t in r[k];
    assert forall k, t | 0 <= k < |r| && t in r[k] :: t == ts || (k < |bs| && t in bs[k]);
  }

  /** Some tipset of the bucket is the same, its parent or its child. */
  ghost predicate Kin(b: Bucket, ts: Key) {
    exists u | u in b :: u == ts || Parents(u) == ts || Parents(ts) == u
  }

  lemma KinIsSameChain(b: Bucket, ts: Key)
    ensures SameChain(b, ts) <==> Kin(b, ts)
  {
    if SameChain(b, ts) {
      var i :| 0 <= i < |b| && Related(ts, b[i]);
      assert b[i] in b;
    }
    if u :| u in b && (u == ts || Parents(u) == ts || Parents(ts) == u) {
      var i :| 0 <= i < |b| && b[i] == u;
      assert Related(ts, b[i]);
    }
  }

  /** Where insertion puts a tipset: at the end of the first bucket with a relative of it, unless that has it already,
      or in a bucket of its own behind all others if no bucket has one. */
  ghost predicate PutIn(bs: seq<Bucket>, ts: Key, r: seq<Bucket>) {
    if forall i | 0 <= i < |bs| :: !Kin(bs[i], ts) then r == bs + [[ts]]
    else exists i | 0 <= i < |bs| ::
      && Kin(bs[i], ts) && (forall j | 0 <= j < i :: !Kin(bs[j], ts))
      && r == bs[i := if ts in bs[i] then bs[i] else bs[i] + [ts]]
  }

  lemma InsertPlace(bs: seq<Bucket>, ts: Key)
    ensures PutIn(bs, ts, Insert(bs, ts))
  {
    forall i | 0 <= i < |bs|
      ensures SameChain(bs[i], ts) <==> Kin(bs[i], ts)
    {
      KinIsSameChain(bs[i], ts);
    }
    if RelatedToAny(bs, ts) {
      var i := FirstRelated(bs, ts);
      assert Kin(bs[i], ts) && forall j | 0 <= j < i :: !Kin(bs[j], ts);
    }
  }

  /** Insertion keeps the buckets in order and loses no tipset. */
  lemma InsertOk(bs: seq<Bucket>, ts: Key)
    requires BucketsOk(bs)
    ensures BucketsOk(Insert(bs, ts))
    ensures Tips(Insert(bs, ts)) == Tips(bs) + {ts}
  {
    InsertKeepsOrder(bs, ts);
    InsertKeepsTips(bs, ts);
  }

  /** The heaviest tipset of each bucket. */
  function Heads(bs: seq<Bucket>): (r: seq<Key>)
    requires forall i | 0 <= i < |bs| :: |bs[i]| > 0
    ensures |r| == |bs| && forall i | 0 <= i < |bs| :: r[i] == Heaviest(bs[i])
  {
    seq(|bs|, i requires 0 <= i < |bs| => Heaviest(bs[i]))
  }

  /** The heaviest tipset in any bucket. */
  ghost function HeaviestOf(bs: seq<Bucket>): (r: Option<Key>)
    requires forall i | 0 <= i < |bs| :: |bs[i]| > 0
    ensures r.None? <==> bs == []
    ensures r.Some? ==> r.value in Tips(bs) && forall ts | ts in Tips(bs) :: Weight(ts) <= Weight(r.value)
  {
    if bs == [] then None else Some(Heaviest(Heads(bs)))
  }

  function Without(bs: seq<Bucket>, k: nat): seq<Bucket>
    requires k < |bs|
  {
    bs[..k] + bs[k + 1..]
  }

  lemma WithoutOk(bs: seq<Bucket>, k: nat)
    requires BucketsOk(bs) && k < |bs|
    ensures BucketsOk(Without(bs, k))
  {
    var r := Without(bs, k);
    assert forall i | 0 <= i < |r| :: r[i] == bs[if i < k then i else i + 1];
  }

  ghost function Unrelated(bs: seq<Bucket>, ts: Key): seq<Bucket> {
    if bs == [] then []
    else
      var front := Unrelated(bs[..|bs| - 1], ts);
      if SameChain(bs[|bs| - 1], ts) then front else front + [bs[|bs| - 1]]
  }

  /** The tipsets of all buckets related to ts, in order. */
  ghost function RelatedTips(bs: seq<Bucket>, ts: Key): Bucket {
    if bs == [] then []
    else
      var front := RelatedTips(bs[..|bs| - 1], ts);
      if SameChain(bs[|bs| - 1], ts) then front + bs[|bs| - 1] else front
  }

  /** What PopRelated leaves are exactly the unrelated buckets. */
  lemma {:induction false} UnrelatedOk(bs: seq<Bucket>, ts: Key)
    requires BucketsOk(bs)
    ensures BucketsOk(Unrelated(bs, ts))
    ensures forall b :: b in Unrelated(bs, ts) <==> b in bs && !SameChain(b, ts)
  {
    if bs != [] {
      var front, last := bs[..|bs| - 1], bs[|bs| - 1];
      UnrelatedOk(front, ts);
      assert bs == front + [last];
      var u := Unrelated(front, ts);
      forall i | 0 <= i < |u|
        ensures u[i][0] != last[0]
      {
        assert u[i] in front;
      }
    }
  }

  /** What PopRelated takes are exactly the tipsets of the other buckets. */
  lemma {:induction false} RelatedTipsOk(bs: seq<Bucket>, ts: Key)
    ensures forall t :: t in RelatedTips(bs, ts) <==> exists b :: b in bs && SameChain(b, ts) && t in b
  {
    if bs != [] {
      var front, last := bs[..|bs| - 1], bs[|bs| - 1];
      RelatedTipsOk(front, ts);
      assert bs == front + [last];
    }
  }

  lemma PopRelatedOk(bs: seq<Bucket>, ts: Key)
    requires BucketsOk(bs)
    ensures BucketsOk(Unrelated(bs, ts))
    ensures forall b :: b in Unrelated(bs, ts) <==> b in bs && !SameChain(b, ts)
    ensures RelatedToAny(bs, ts) ==> RelatedTips(bs, ts) != []
  {
    UnrelatedOk(bs, ts);
    RelatedTipsOk(bs, ts);
    if RelatedToAny(bs, ts) {
      var b := bs[FirstRelated(bs, ts)];
      assert b in bs && b[0] in RelatedTips(bs, ts);
    }
  }

  // How the definitions above grow with the list, one element at a time, as the scans do.

  lemma PopRelatedStep(bs: seq<Bucket>, ts: Key, i: nat)
    requires i < |bs|
    ensures Unrelated(bs[..i + 1], ts) == Unrelated(bs[..i], ts) + if SameChain(bs[i], ts) then [] else [bs[i]]
    ensures RelatedTips(bs[..i + 1], ts) == RelatedTips(bs[..i], ts) + if SameChain(bs[i], ts) then bs[i] else []
    ensures RelatedToAny(bs[..i + 1], ts) <==> RelatedToAny(bs[..i], ts) || SameChain(bs[i], ts)
  {
    assert bs[..i + 1][..i] == bs[..i];
    if k :| 0 <= k < i && SameChain(bs[..i][k], ts) {
      assert SameChain(bs[..i + 1][k], ts);
    }
    assert bs[..i + 1][i] == bs[i];
    assert forall k | 0 <= k < i :: bs[..i + 1][k] == bs[..i][k];
  }
}
