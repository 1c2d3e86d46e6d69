/** Two concrete runs of collectHeaders that show where its documentation promises more than it does. */
module HeaderExamples {
  import opened Outcomes
  import opened Tipsets
  import opened Forks
  import opened BadBlocks
  import opened Headers

  function OneBlock(parents: Key, height: int, nonce: int): TipSet {
    [Block(parents, height, 0, MsgRoot([], []), [], nonce)]
  }

  /** Our head is the checkpoint, and yet a sibling of it is accepted. */
  method SiblingDisplacesCheckpoint() returns (env: Env, sibling: TipSet, r: Result<seq<TipSet>, CollectError>)
    ensures env.checkpoint.Some? && r.Ok? && |r.value| > 0 && r.value[0] == sibling
    ensures !OnChainOf(env.checkpoint.value, sibling)
  {
    var genesis := OneBlock([], 0, 0);
    var known := OneBlock(genesis, 1, 0);
    sibling := OneBlock(genesis, 1, 1);
    env := Env({genesis, known}, (n, k, c) => None, Some(known), genesis, 900);
    var bad := new BadBlockCache(n => {});
    r := CollectHeaders(env, bad, sibling, known, false);
    assert IsChildOf(sibling, Parents(known));
    assert Back(sibling, 0) == sibling;
    SiblingNotOnChain(sibling, 0, sibling, known);
  }

  /** A fork fragment is accepted although one of its blocks is in the bad-block cache. */
  method ForkFragmentUnchecked() returns (bad: BadBlockCache, r: Result<seq<TipSet>, CollectError>)
    ensures r.Ok? && exists i, c :: 0 <= i < |r.value| && c in r.value[i] && c in bad.badBlocks
  {
    var genesis := OneBlock([], 0, 0);
    var shared := OneBlock(genesis, 1, 0);
    var known := OneBlock(shared, 3, 0);
    var x := OneBlock(shared, 2, 1);
    var y := OneBlock(x, 3, 1);
    var incoming := OneBlock(y, 4, 1);
    var segment: seq<TipSet> := [y, x, shared];
    var env := Env({genesis, shared, known}, (n, k, c) => Some(segment), None, genesis, 900);
    bad := new BadBlockCache(n => {});
    bad.Add(x[0], NewBadBlockReason(x, ManuallyMarked));
    assert segment[2] == shared;
    JoiningIsCollected(env, bad.badBlocks, incoming, known, segment);
    r := CollectHeaders(env, bad, incoming, known, false);
    MeetsBelow(env, known, r.value, incoming, y, x);
    assert x[0] in r.value[2] && x[0] in bad.badBlocks;
  }

  /** A fork that joins at the parent of our head is collected. */
  lemma JoiningIsCollected(env: Env, bad: Reasons, incoming: TipSet, known: TipSet, tips: seq<TipSet>)
    requires incoming != known && Height(incoming) <= Height(known) + 1 && Acceptable(incoming, bad)
    requires Parents(known) in env.local && Height(Parents(known)) != 0 && env.checkpoint.None?
    requires env.forkLengthThreshold >= 1 && Parents(known) in tips
    requires GetBlocks(env, 0, Parents(incoming), env.forkLengthThreshold) == Some(tips)
    ensures Collected(env, bad, incoming, known, false).Some?
  {
    assert Back(known, 1) == Parents(known);
    assert JoinsAt(env, known, false, Parents(known), 1);
    assert CanConnect(env, 0, incoming, known, false);
  }

  /** A chain that starts incoming, y, x and meets ours neither at incoming nor at y reaches x. */
  lemma MeetsBelow(env: Env, known: TipSet, chain: seq<TipSet>, incoming: TipSet, y: TipSet, x: TipSet)
    requires |chain| > 0 && chain[0] == incoming && Linked(chain) && Meets(env, known, false, Last(chain))
    requires Parents(incoming) == y && Parents(y) == x && Descending(known)
    requires Height(incoming) >= Height(known) && Height(y) >= Height(known)
    requires y !in {known, Parents(known)} && x !in {known, Parents(known)}
    ensures |chain| >= 3 && chain[2] == x
  {
    if i :| JoinsAt(env, known, false, Last(chain), i) {
      DescendingBack(known, i);
    }
    assert |chain| > 1 ==> Parents(chain[0]) == chain[1];
    assert |chain| > 2 ==> Parents(chain[1]) == chain[2];
  }
}
