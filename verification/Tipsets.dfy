/** Blocks, tipsets and the chains they form.

    Hashing is taken to be collision free, so a CID is modelled by the block
    header it names, and the key of a tipset (its ordered CIDs) by the headers
    themselves.  Equal keys therefore mean equal tipsets, as in the original.
 */
module Tipsets {

  datatype BeaconEntry = BeaconEntry(round: nat, data: seq<int>)

  /** Root of the message arrays of a block; collision free like every hash here. */
  datatype MsgRoot = MsgRoot(bls: seq<int>, secpk: seq<int>)

  datatype Block = Block(parents: seq<Block>, height: int, weight: int,
                         messages: MsgRoot, beacon: seq<BeaconEntry>, nonce: int)

  type Cid = Block
  type Key = seq<Cid>

  /** What NewTipSet checks: at least one block, all at one height with the same parents. */
  predicate FormsTipSet(k: Key) {
    |k| > 0 && forall b | b in k :: b.height == k[0].height && b.parents == k[0].parents
  }

  const SAMPLE_BLOCK := Block([], 0, 0, MsgRoot([], []), [], 0)

  type TipSet = k: Key | FormsTipSet(k) witness [SAMPLE_BLOCK]

  // The blocks of a tipset agree on these, so the first one speaks for all.

  function Parents(ts: Key): Key {
    if ts == [] then [] else ts[0].parents
  }

  function Height(ts: Key): int {
    if ts == [] then 0 else ts[0].height
  }

  function Weight(ts: Key): int {
    if ts == [] then 0 else ts[0].weight
  }

  predicate IsChildOf(ts: Key, parent: Key) {
    Parents(ts) == parent && Height(ts) > Height(parent)
  }

  function Last(chain: seq<TipSet>): TipSet
    requires |chain| > 0
  {
    chain[|chain| - 1]
  }

  /** Each tipset is a child, key and height, of the one after it. */
  predicate Connected(chain: seq<TipSet>) {
    forall i | 0 <= i < |chain| - 1 :: IsChildOf(chain[i], chain[i + 1])
  }

  /** Each tipset names the one after it as its parent. */
  predicate Linked(chain: seq<TipSet>) {
    forall i | 0 <= i < |chain| - 1 :: Parents(chain[i]) == chain[i + 1]
  }

  /** The key n steps back from k; empty once the chain has run out. */
  function Back(k: Key, n: nat): Key {
    if n == 0 || k == [] then k else Back(k[0].parents, n - 1)
  }

  ghost predicate StrictAncestor(a: TipSet, ts: TipSet) {
    exists n :: n >= 1 && Back(ts, n) == a
  }

  ghost predicate OnChainOf(a: TipSet, ts: TipSet) {
    exists n :: Back(ts, n) == a
  }

  /** Heights are never negative and fall strictly towards the genesis, as on every validated chain. */
  ghost predicate Descending(k: Key) {
    k == [] ||
    (&& k[0].height >= 0
     && (k[0].parents != [] ==> k[0].parents[0].height < k[0].height)
     && Descending(k[0].parents))
  }

  lemma {:induction false} BackSum(k: Key, m: nat, n: nat)
    ensures Back(Back(k, m), n) == Back(k, m + n)
  {
    if m > 0 && k != [] {
      BackSum(k[0].parents, m - 1, n);
    }
  }

  lemma {:induction false} DescendingBack(k: Key, n: nat)
    requires Descending(k)
    ensures Descending(Back(k, n))
    ensures n > 0 && Back(k, n) != [] ==> Back(k, n)[0].height < k[0].height
  {
    if n > 0 && k != [] {
      DescendingBack(k[0].parents, n - 1);
    }
  }

  /** Deeper on a descending chain means strictly lower. */
  lemma DeeperIsLower(k: Key, m: nat, n: nat)
    requires Descending(k) && m < n && Back(k, n) != []
    ensures Back(k, m) != [] && Back(k, n)[0].height < Back(k, m)[0].height
  {
    BackSum(k, m, n - m);
    DescendingBack(k, m);
    DescendingBack(Back(k, m), n - m);
  }

  lemma {:induction false} ConnectedHeights(chain: seq<TipSet>, i: nat, j: nat)
    requires Connected(chain) && i < j < |chain|
    ensures Height(chain[j]) < Height(chain[i])
    decreases j
  {
    assert IsChildOf(chain[j - 1], chain[j]);
    if i < j - 1 {
      ConnectedHeights(chain, i, j - 1);
    }
  }

  /** A linked list of tipsets spells out the ancestors of its first element. */
  lemma {:induction false} LinkedIsBack(chain: seq<TipSet>, i: nat)
    requires Linked(chain) && i < |chain|
    ensures chain[i] == Back(chain[0], i)
    decreases i
  {
    if i > 0 {
      LinkedIsBack(chain, i - 1);
      BackSum(chain[0], i - 1, 1);
      assert Parents(chain[i - 1]) == chain[i];
    }
  }

  function Depth(k: Key): nat {
    if k == [] then 0 else 1 + Depth(k[0].parents)
  }

  /** A tipset occurs on a chain at one depth only, so no tipset is its own ancestor. */
  lemma {:induction false} BackDepth(k: Key, n: nat)
    requires Back(k, n) != []
    ensures Depth(Back(k, n)) + n == Depth(k)
  {
    if n > 0 {
      BackDepth(k[0].parents, n - 1);
    }
  }

  lemma OnChainTrans(a: TipSet, b: TipSet, c: TipSet)
    requires OnChainOf(a, b) && OnChainOf(b, c)
    ensures OnChainOf(a, c)
  {
    var m: nat :| Back(b, m) == a;
    var n: nat :| Back(c, n) == b;
    BackSum(c, n, m);
  }
}
