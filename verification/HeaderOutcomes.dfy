/** How collecting headers comes out, stated apart from the walk: what is refused, where the walk ends and why. */
module HeaderOutcomes {
  import opened Outcomes
  import opened Tipsets
  import opened Forks
  import opened BadBlocks
  import opened Headers
  import opened HeaderProgress

  // -- the checks on the announced tipset

  /** x is the first of these blocks that is known to be bad. */
  ghost predicate FirstOf(cids: Key, bad: Reasons, x: Cid) {
    x in bad && exists i :: 0 <= i < |cids| && cids[i] == x && forall j | 0 <= j < i :: cids[j] !in bad
  }

  lemma {:induction false} FirstBadIsFirst(cids: Key, bad: Reasons)
    ensures FirstBadIn(cids, bad).None? <==> forall c | c in cids :: c !in bad
    ensures FirstBadIn(cids, bad).Some? ==> FirstOf(cids, bad, FirstBadIn(cids, bad).value)
  {
    if cids != [] && cids[0] !in bad {
      FirstBadIsFirst(cids[1..], bad);
      if FirstBadIn(cids, bad).Some? {
        var x := FirstBadIn(cids, bad).value;
        var i :| 0 <= i < |cids[1..]| && cids[1..][i] == x && forall j | 0 <= j < i :: cids[1..][j] !in bad;
        assert cids[i + 1] == x && forall j | 0 < j < i + 1 :: cids[j] == cids[1..][j - 1];
      }
    }
  }

  /** Some round is followed by a smaller one. */
  predicate RoundsFall(entries: seq<BeaconEntry>) {
    exists i :: 0 < i < |entries| && entries[i - 1].round > entries[i].round
  }

  /** The announced tipset is refused for the first of its parents that is known to be bad; failing that if its first
      block's beacon rounds fall; failing that if another block's beacon entries differ from the first one's. */
  lemma RefusedExactly(incoming: TipSet, bad: Reasons)
    ensures var clean := forall c | c in Parents(incoming) :: c !in bad;
            match Refusal(incoming, bad)
            case None =>
              && clean && !RoundsFall(incoming[0].beacon)
              && forall b | b in incoming :: b.beacon == incoming[0].beacon
            case Some(e) =>
              || (e.LinkedToBad? && FirstOf(Parents(incoming), bad, e.block))
              || (e == BeaconOrder && clean && RoundsFall(incoming[0].beacon))
              || (e == BeaconMismatch && clean && !RoundsFall(incoming[0].beacon)
                  && exists b | b in incoming :: b.beacon != incoming[0].beacon)
  {
    FirstBadIsFirst(Parents(incoming), bad);
    var entries := incoming[0].beacon;
    if i :| 0 < i < |entries| && entries[i - 1].round > entries[i].round {
      assert !(entries[i - 1].round <= entries[i].round);
    }
  }

  // -- a fetched segment

  /** None of the first k tipsets is below the target height or holds a known bad block. */
  ghost predicate GoodUpTo(bad: Reasons, blks: seq<TipSet>, untilHeight: int, k: nat) {
    k <= |blks| && forall i | 0 <= i < k :: Height(blks[i]) >= untilHeight && forall c | c in blks[i] :: c !in bad
  }

  /** How far a segment is taken: whole, up to the first tipset below the target height, or up to the first one at or
      above it that holds a known bad block. */
  lemma {:induction false} ScanExactly(bad: Reasons, blks: seq<TipSet>, untilHeight: int)
    ensures var r := Scan(bad, blks, untilHeight);
            && GoodUpTo(bad, blks, untilHeight, r.kept)
            && match r.end
               case Exhausted => r.kept == |blks|
               case BelowTarget => r.kept < |blks| && Height(blks[r.kept]) < untilHeight
               case HitBad(x) => r.kept < |blks| && Height(blks[r.kept]) >= untilHeight && FirstOf(blks[r.kept], bad, x)
  {
    if blks != [] && Height(blks[0]) >= untilHeight {
      FirstBadIsFirst(blks[0], bad);
      if FirstBadIn(blks[0], bad).None? {
        ScanExactly(bad, blks[1..], untilHeight);
        assert forall i | 0 < i < |blks| :: blks[i] == blks[1..][i - 1];
      }
    }
  }

  // -- the walk

  /** A segment that is not taken whole: the walk ends before its first tipset below the target height, or fails at the
      first known bad block. */
  ghost predicate SegmentEnds(bad: Reasons, at: Spot, blks: seq<TipSet>, untilHeight: int, k: nat, w: Walk) {
    && k < |blks| && GoodUpTo(bad, blks, untilHeight, k)
    && if Height(blks[k]) < untilHeight then w == Reached(at.chain + blks[..k], at.calls + 1)
       else w.Stuck? && w.error.ContainsBad? && FirstOf(blks[k], bad, w.error.block)
  }

  /** The walk ends here: at the target height, before a known bad block, or with what the peers send for a tipset that
      is not in the local store. */
  ghost predicate EndsHere(env: Env, bad: Reasons, at: Spot, untilHeight: int, w: Walk) {
    && |at.chain| > 0
    && if Height(Last(at.chain)) <= untilHeight then w == Reached(at.chain, at.calls)
       else if exists c | c in Parents(Last(at.chain)) :: c in bad then
         w.Stuck? && w.error.ContainsBad? && FirstOf(Parents(Last(at.chain)), bad, w.error.block)
       else
         && Parents(Last(at.chain)) !in env.local
         && match Segment(env, at, untilHeight)
            case None => w == Stuck(BlocksUnavailable)
            case Some(blks) =>
              if !IsChildOf(Last(at.chain), blks[0]) then w == Stuck(NotConnected)
              else exists k: nat :: SegmentEnds(bad, at, blks, untilHeight, k, w)
  }

  lemma SegmentEnd(env: Env, bad: Reasons, at: Spot, untilHeight: int, w: Walk)
    requires Wanted(bad, at, untilHeight) && Parents(Last(at.chain)) !in env.local
    requires !TakesWhole(env, bad, at, untilHeight) && w == WalkFrom(env, bad, at.chain, untilHeight, at.calls)
    ensures EndsHere(env, bad, at, untilHeight, w)
  {
    FirstBadIsFirst(Parents(Last(at.chain)), bad);
    var blks := Segment(env, at, untilHeight);
    if blks.Some? && IsChildOf(Last(at.chain), blks.value[0]) {
      ScanExactly(bad, blks.value, untilHeight);
      ScansWhole(bad, blks.value, untilHeight);
      assert SegmentEnds(bad, at, blks.value, untilHeight, Scan(bad, blks.value, untilHeight).kept, w);
    }
  }

  lemma WalkStaysPut(env: Env, bad: Reasons, at: Spot, untilHeight: int, w: Walk)
    requires |at.chain| > 0 && !GoesOn(env, bad, at, untilHeight)
    requires w == WalkFrom(env, bad, at.chain, untilHeight, at.calls)
    ensures EndsHere(env, bad, at, untilHeight, w)
  {
    FirstBadIsFirst(Parents(Last(at.chain)), bad);
    if Wanted(bad, at, untilHeight) {
      SegmentEnd(env, bad, at, untilHeight, w);
    }
  }

  lemma WalkLoads(env: Env, bad: Reasons, at: Spot, untilHeight: int, next: seq<TipSet>, w: Walk)
    requires Loads(env, bad, at, untilHeight) && next == at.chain + [Parents(Last(at.chain))]
    requires w == WalkFrom(env, bad, at.chain, untilHeight, at.calls)
    ensures w == WalkFrom(env, bad, next, untilHeight, at.calls)
    ensures Depth(Parents(Last(next))) < Depth(Parents(Last(at.chain)))
  {
    FirstBadIsFirst(Parents(Last(at.chain)), bad);
  }

  lemma WalkTakes(env: Env, bad: Reasons, at: Spot, untilHeight: int, next: seq<TipSet>, w: Walk)
    requires TakesWhole(env, bad, at, untilHeight) && next == at.chain + Segment(env, at, untilHeight).value
    requires w == WalkFrom(env, bad, at.chain, untilHeight, at.calls)
    ensures w == WalkFrom(env, bad, next, untilHeight, at.calls + 1)
  {
    FirstBadIsFirst(Parents(Last(at.chain)), bad);
    FetchedLeads(env, bad, at.chain, untilHeight, at.calls);
    GoesOnIffWhole(env, bad, at, untilHeight);
  }

  lemma WalkGoesOn(env: Env, bad: Reasons, at: Spot, untilHeight: int, next: Spot, w: Walk)
    requires GoesOn(env, bad, at, untilHeight) && next == NextSpot(env, bad, at, untilHeight)
    requires w == WalkFrom(env, bad, at.chain, untilHeight, at.calls)
    ensures w == WalkFrom(env, bad, next.chain, untilHeight, next.calls)
    ensures Depth(Parents(Last(next.chain))) < Depth(Parents(Last(at.chain)))
  {
    if Loads(env, bad, at, untilHeight) {
      WalkLoads(env, bad, at, untilHeight, next.chain, w);
    } else {
      WalkTakes(env, bad, at, untilHeight, next.chain, w);
      WholeGoesBack(env, bad, at, untilHeight, next.chain);
    }
  }

  /** After n turns the walk ends there. */
  ghost predicate EndsAfter(env: Env, bad: Reasons, at: Spot, untilHeight: int, n: nat, w: Walk) {
    match AfterTurns(env, bad, at, untilHeight, n)
    case None => false
    case Some(spot) => EndsHere(env, bad, spot, untilHeight, w)
  }

  lemma OneTurnEarlier(env: Env, bad: Reasons, at: Spot, untilHeight: int, next: Spot, n: nat, w: Walk)
    requires GoesOn(env, bad, at, untilHeight) && next == NextSpot(env, bad, at, untilHeight)
    requires EndsAfter(env, bad, next, untilHeight, n, w)
    ensures EndsAfter(env, bad, at, untilHeight, n + 1, w)
  {
    assert AfterTurns(env, bad, at, untilHeight, n + 1) == AfterTurns(env, bad, next, untilHeight, n);
  }

  lemma {:induction false} WalkEnds(env: Env, bad: Reasons, at: Spot, untilHeight: int, w: Walk)
    requires |at.chain| > 0 && w == WalkFrom(env, bad, at.chain, untilHeight, at.calls)
    ensures exists n: nat :: EndsAfter(env, bad, at, untilHeight, n, w)
    decreases Depth(Parents(Last(at.chain)))
  {
    if GoesOn(env, bad, at, untilHeight) {
      var next := NextSpot(env, bad, at, untilHeight);
      WalkGoesOn(env, bad, at, untilHeight, next, w);
      WalkEnds(env, bad, next, untilHeight, w);
      var n: nat :| EndsAfter(env, bad, next, untilHeight, n, w);
      OneTurnEarlier(env, bad, at, untilHeight, next, n, w);
    } else {
      WalkStaysPut(env, bad, at, untilHeight, w);
      assert EndsAfter(env, bad, at, untilHeight, 0, w);
    }
  }

  /** Every walk takes some number of turns, each a local load or a segment taken whole, and then ends: at the target
      height, in a segment that goes below it, before a known bad block, or for want of an answer that fits. */
  lemma WalkExactly(env: Env, bad: Reasons, incoming: TipSet, untilHeight: int)
    ensures exists n: nat :: EndsAfter(env, bad, Spot([incoming], 0), untilHeight, n,
                                       WalkFrom(env, bad, [incoming], untilHeight, 0))
  {
    WalkEnds(env, bad, Spot([incoming], 0), untilHeight, WalkFrom(env, bad, [incoming], untilHeight, 0));
  }

  // -- the connection

  /** A chain is refused for want of our head's parent exactly if it is no child of our head and that parent is not in
      the local store; every other failure to connect is one to resolve a fork. */
  lemma ConnectErrorExactly(env: Env, call: nat, base: TipSet, known: TipSet, ignoreCheckpoint: bool)
    requires !CanConnect(env, call, base, known, ignoreCheckpoint)
    ensures var e := ConnectError(env, call, base, known, ignoreCheckpoint);
            && (e == ParentUnavailable <==> Parents(known) !in env.local)
            && (e == ForkFailed(FetchFailed)
                <==> && Parents(known) in env.local && !(!ignoreCheckpoint && env.checkpoint == Some(known))
                     && GetBlocks(env, call, Parents(base), env.forkLengthThreshold).None?)
            && (e == ParentUnavailable || e.ForkFailed?)
  {
    var tips := GetBlocks(env, call, Parents(base), env.forkLengthThreshold);
    if tips.Some? {
      NeverFetchFailed(env, known, ignoreCheckpoint, tips.value, 0);
    }
  }

  lemma {:induction false} NeverFetchFailed(env: Env, nts: TipSet, ignoreCheckpoint: bool, tips: seq<TipSet>, m: nat)
    requires |tips| > 0
    ensures SearchError(env, nts, ignoreCheckpoint, tips, m) != FetchFailed
    decreases env.forkLengthThreshold - m
  {
    if Stop(env, nts, ignoreCheckpoint, tips, m).None? {
      NeverFetchFailed(env, Parents(nts), ignoreCheckpoint, tips, m + 1);
    }
  }
}
