/** The bucket queue of the scheduler as a mutable object, and the scans it makes. */
module SyncQueues {
  import opened Outcomes
  import opened Tipsets
  import opened SyncBuckets

  method SameChainAs(b: Bucket, ts: Key) returns (r: bool)
    ensures r <==> SameChain(b, ts)
  {
    for i := 0 to |b|
      invariant forall j | 0 <= j < i :: !Related(ts, b[j])
    {
      if Related(ts, b[i]) {
        return true;
      }
    }
    return false;
  }

  method HeaviestTipSet(b: Bucket) returns (best: Option<Key>)
    ensures best == if b == [] then None else Some(Heaviest(b))
  {
    best := None;
    ghost var k := 0;
    for i := 0 to |b|
      invariant i == 0 ==> best.None?
      invariant i > 0 ==> k < i && best == Some(b[k])
      invariant i > 0 ==> forall j | 0 <= j < i :: Weight(b[j]) <= Weight(b[k])
      invariant i > 0 ==> forall j | 0 <= j < k :: Weight(b[j]) < Weight(b[k])
    {
      if best.None? || Weight(b[i]) > Weight(best.value) {
        best := Some(b[i]);
        k := i;
      }
    }
  }

  lemma MoveOne<T>(a: seq<T>, b: seq<T>, i: nat)
    requires i < |b|
    ensures a + b[i..] == (a + [b[i]]) + b[i + 1..]
  {
  }

  /** The scan over all buckets that Pop and Heaviest make. */
  method BestBucket(bs: seq<Bucket>) returns (best: nat)
    requires bs != [] && forall i | 0 <= i < |bs| :: |bs[i]| > 0
    ensures best == FirstMax(Heads(bs))
  {
    ghost var heads := Heads(bs);
    best := 0;
    var bestTs := Heaviest(bs[0]);
    for i := 1 to |bs|
      invariant best < i && bestTs == heads[best]
      invariant forall j | 0 <= j < i :: Weight(heads[j]) <= Weight(heads[best])
      invariant forall j | 0 <= j < best :: Weight(heads[j]) < Weight(heads[best])
    {
      var hts := HeaviestTipSet(bs[i]);
      if Weight(bestTs) < Weight(hts.value) {
        best, bestTs := i, hts.value;
      }
    }
  }

  function Filtered(bs: seq<Bucket>, b: Bucket): seq<Bucket> {
    if bs == [] then []
    else
      var front, last := Filtered(bs[..|bs| - 1], b), bs[|bs| - 1];
      if last == b then front else front + [last]
  }

  lemma {:induction false} FilteredAbsent(bs: seq<Bucket>, b: Bucket)
    requires b !in bs
    ensures Filtered(bs, b) == bs
  {
    if bs != [] {
      FilteredAbsent(bs[..|bs| - 1], b);
    }
  }

  /** Buckets that differ from each other are filtered out at most once. */
  lemma {:induction false} FilteredOnce(bs: seq<Bucket>, k: nat)
    requires k < |bs| && forall i | 0 <= i < |bs| && i != k :: bs[i] != bs[k]
    ensures Filtered(bs, bs[k]) == Without(bs, k)
  {
    var n := |bs| - 1;
    if k == n {
      FilteredAbsent(bs[..n], bs[k]);
    } else {
      FilteredOnce(bs[..n], k);
      assert bs[k + 1..] == bs[..n][k + 1..] + [bs[n]];
    }
  }

  lemma FilteredOk(bs: seq<Bucket>, b: Bucket)
    requires BucketsOk(bs)
    ensures BucketsOk(Filtered(bs, b))
    ensures forall k | 0 <= k < |bs| && bs[k] == b :: Filtered(bs, b) == Without(bs, k)
  {
    if b in bs {
      var k :| 0 <= k < |bs| && bs[k] == b;
      FilteredOnce(bs, k);
      WithoutOk(bs, k);
    } else {
      FilteredAbsent(bs, b);
    }
  }

  /** syncBucketSet.  Buckets are told apart by their contents, which is enough because no two of them start
      from the same tipset. */
  class SyncBucketSet {
    var buckets: seq<Bucket>

    constructor ()
      ensures buckets == [] && BucketsOk(buckets)
    {
      buckets := [];
    }

    method RelatedTo(ts: Key) returns (r: bool)
      ensures r <==> RelatedToAny(buckets, ts)
    {
      for i := 0 to |buckets|
        invariant forall j | 0 <= j < i :: !SameChain(buckets[j], ts)
      {
        var same := SameChainAs(buckets[i], ts);
        if same {
          return true;
        }
      }
      return false;
    }

    method Add(ts: Key)
      requires BucketsOk(buckets)
      modifies this
      ensures buckets == Insert(old(buckets), ts) && BucketsOk(buckets)
    {
      InsertOk(buckets, ts);
      for i := 0 to |buckets|
        invariant buckets == old(buckets)
        invariant forall j | 0 <= j < i :: !SameChain(buckets[j], ts)
      {
        var same := SameChainAs(buckets[i], ts);
        if same {
          buckets := buckets[i := AddTo(buckets[i], ts)];
          return;
        }
      }
      buckets := buckets + [[ts]];
    }

    /** removeBucket: it allocates room for one bucket less, so the queue must not be empty. */
    method RemoveBucket(toRemove: Bucket)
      requires BucketsOk(buckets) && |buckets| > 0
      modifies this
      ensures BucketsOk(buckets)
      ensures forall k | 0 <= k < |old(buckets)| && old(buckets)[k] == toRemove :: buckets == Without(old(buckets), k)
    {
      FilteredOk(buckets, toRemove);
      var nbuckets: seq<Bucket> := [];
      for i := 0 to |buckets|
        invariant buckets == old(buckets) && nbuckets == Filtered(buckets[..i], toRemove)
      {
        assert buckets[..i + 1][..i] == buckets[..i];
        if buckets[i] != toRemove {
          nbuckets := nbuckets + [buckets[i]];
        }
      }
      assert buckets[..|buckets|] == buckets;
      buckets := nbuckets;
    }

    /** Take out the first of the buckets with the heaviest tipset. */
    method Pop() returns (best: Bucket)
      requires BucketsOk(buckets) && buckets != []
      modifies this
      ensures BucketsOk(buckets)
      ensures var k := FirstMax(Heads(old(buckets)));
              best == old(buckets)[k] && buckets == Without(old(buckets), k)
    {
      var k := BestBucket(buckets);
      best := buckets[k];
      RemoveBucket(best);
    }

    /** One turn of PopRelated: drop bucket i of those it started with if it is related to ts. */
    method DropIfRelated(all: seq<Bucket>, i: nat, ts: Key, ghost kept: seq<Bucket>) returns (same: bool)
      requires i < |all| && BucketsOk(buckets) && buckets == kept + all[i..]
      modifies this
      ensures BucketsOk(buckets)
      ensures same <==> SameChain(all[i], ts)
      ensures buckets == (if same then kept else kept + [all[i]]) + all[i + 1..]
    {
      MoveOne(kept, all, i);
      assert buckets[|kept|] == all[i];
      same := SameChainAs(all[i], ts);
      if same {
        RemoveBucket(all[i]);
      }
    }

    /** Take out every bucket related to ts and return their tipsets together. */
    method PopRelated(ts: Key) returns (out: Option<Bucket>)
      requires BucketsOk(buckets)
      modifies this
      ensures buckets == Unrelated(old(buckets), ts) && BucketsOk(buckets)
      ensures out == if RelatedToAny(old(buckets), ts) then Some(RelatedTips(old(buckets), ts)) else None
    {
      var all := buckets;
      var tips: Bucket := [];
      var found := false;
      ghost var kept: seq<Bucket> := [];
      for i := 0 to |all|
        invariant BucketsOk(buckets) && buckets == kept + all[i..]
        invariant kept == Unrelated(all[..i], ts) && tips == RelatedTips(all[..i], ts)
        invariant found <==> RelatedToAny(all[..i], ts)
      {
        PopRelatedStep(all, ts, i);
        var same := DropIfRelated(all, i, ts, kept);
        if same {
          found, tips := true, tips + all[i];
        } else {
          kept := kept + [all[i]];
        }
      }
      assert all[..|all|] == all;
      out := if found then Some(tips) else None;
    }

    method HeaviestTip() returns (best: Option<Key>)
      requires BucketsOk(buckets)
      ensures best == HeaviestOf(buckets)
    {
      if buckets == [] {
        return None;
      }
      var k := BestBucket(buckets);
      best := HeaviestTipSet(buckets[k]);
    }
  }
}
