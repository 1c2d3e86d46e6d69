/** When header collection must succeed: where the walk ends, and what peers and chain it needs to get there. */
module HeaderProgress {
  import opened Outcomes
  import opened Tipsets
  import opened Forks
  import opened BadBlocks
  import opened Headers

  // -- where the walk ends

  ghost predicate Above(chain: seq<TipSet>, n: nat, height: int) {
    forall i | 0 <= i < n && i < |chain| :: Height(chain[i]) > height
  }

  lemma ScanStops(bad: Reasons, blks: seq<TipSet>, untilHeight: int, k: nat)
    requires k < Scan(bad, blks, untilHeight).kept
    ensures Height(blks[k]) >= untilHeight
    decreases k
  {
    if k > 0 {
      ScanStops(bad, blks[1..], untilHeight, k - 1);
    }
  }

  /** What is taken of a connected segment lies above the target height, but for its last tipset. */
  lemma SegmentAbove(bad: Reasons, chain: seq<TipSet>, blks: seq<TipSet>, untilHeight: int)
    requires |chain| > 0 && Above(chain, |chain|, untilHeight) && |blks| > 0 && Connected(blks)
    ensures var all := chain + blks[..Scan(bad, blks, untilHeight).kept]; Above(all, |all| - 1, untilHeight)
  {
    var kept := Scan(bad, blks, untilHeight).kept;
    var all := chain + blks[..kept];
    forall i | 0 <= i < |all| - 1
      ensures Height(all[i]) > untilHeight
    {
      if i >= |chain| {
        var k := i - |chain|;
        ScanStops(bad, blks, untilHeight, k + 1);
        assert IsChildOf(blks[k], blks[k + 1]);
      }
    }
  }

  lemma NextIsNotTaken(chain: seq<TipSet>, blks: seq<TipSet>, kept: nat)
    requires |chain| > 0 && kept < |blks| && Connected(blks) && Parents(Last(chain)) == blks[0]
    ensures Parents(Last(chain + blks[..kept])) == blks[kept]
  {
    var longer := chain + blks[..kept];
    if kept > 0 {
      assert Last(longer) == blks[kept - 1];
      assert IsChildOf(blks[kept - 1], blks[kept]);
    } else {
      assert longer == chain;
    }
  }

  lemma FetchedAbove(env: Env, bad: Reasons, chain: seq<TipSet>, untilHeight: int, calls: nat)
    requires |chain| > 0 && Above(chain, |chain|, untilHeight)
    ensures var (longer, turn) := Fetched(env, bad, chain, untilHeight, calls);
            && |longer| > 0 && (!turn.Failed? ==> Above(longer, |longer| - 1, untilHeight))
            && (turn.Met? ==> Height(Parents(Last(longer))) < untilHeight)
  {
    var fetched := GetBlocks(env, calls, Parents(Last(chain)), Window(Height(Last(chain)) - untilHeight));
    if fetched.Some? && IsChildOf(Last(chain), fetched.value[0]) {
      var blks := fetched.value;
      SegmentAbove(bad, chain, blks, untilHeight);
      var scan := Scan(bad, blks, untilHeight);
      if scan.end.BelowTarget? {
        NextIsNotTaken(chain, blks, scan.kept);
      }
    }
  }

  /** The walk stops at the first tipset that is at or below the target height, or right above one that is below it. */
  lemma {:induction false} WalkStops(env: Env, bad: Reasons, chain: seq<TipSet>, untilHeight: int, calls: nat)
    requires |chain| > 0 && Above(chain, |chain| - 1, untilHeight)
    requires WalkFrom(env, bad, chain, untilHeight, calls).Reached?
    ensures var w := WalkFrom(env, bad, chain, untilHeight, calls).chain;
            && Above(w, |w| - 1, untilHeight)
            && (Height(Last(w)) <= untilHeight || Height(Parents(Last(w))) < untilHeight)
    decreases Depth(Parents(Last(chain)))
  {
    var at, gap := Parents(Last(chain)), Height(Last(chain)) - untilHeight;
    if gap > 0 {
      assert Above(chain, |chain|, untilHeight);
      if at in env.local {
        WalkStops(env, bad, chain + [at], untilHeight, calls);
      } else {
        FetchedLeads(env, bad, chain, untilHeight, calls);
        FetchedAbove(env, bad, chain, untilHeight, calls);
        var (longer, turn) := Fetched(env, bad, chain, untilHeight, calls);
        if turn.GoOn? {
          WalkStops(env, bad, longer, untilHeight, calls + 1);
        }
      }
    }
  }

  // -- when it gets there

  /** The peers answer every allowed request for this tipset with a chain that starts there. */
  ghost predicate Served(env: Env, ts: Key) {
    forall n: nat, count: nat | 1 <= count <= env.forkLengthThreshold ::
      env.reply(n, ts, count).Some? && GoodReply(ts, count, env.reply(n, ts, count).value)
  }

  ghost predicate Obtainable(env: Env, bad: Reasons, ts: Key) {
    && FormsTipSet(ts) && (ts in env.local || Served(env, ts))
    && (forall c | c in ts :: c !in bad)
  }

  /** From ts down to the target height every parent is strictly lower, obtainable and not known to be bad. */
  ghost predicate Walkable(env: Env, bad: Reasons, ts: Key, untilHeight: int)
    decreases Depth(ts)
  {
    Height(ts) <= untilHeight
    || (ts != [] && Height(Parents(ts)) < Height(ts) && Obtainable(env, bad, Parents(ts))
        && Walkable(env, bad, Parents(ts), untilHeight))
  }

  lemma TailConnected(blks: seq<TipSet>)
    requires |blks| > 0 && Connected(blks)
    ensures Connected(blks[1..])
  {
    var tail := blks[1..];
    forall i | 0 <= i < |tail| - 1
      ensures IsChildOf(tail[i], tail[i + 1])
    {
      var k := i + 1;
      assert IsChildOf(blks[k], blks[k + 1]);
    }
  }

  lemma {:induction false} SegmentWalkable(env: Env, bad: Reasons, blks: seq<TipSet>, untilHeight: int)
    requires |blks| > 0 && Connected(blks) && Walkable(env, bad, blks[0], untilHeight)
    requires Obtainable(env, bad, blks[0])
    ensures var scan := Scan(bad, blks, untilHeight);
            !scan.end.HitBad? && (scan.end.Exhausted? ==> Walkable(env, bad, Last(blks), untilHeight))
  {
    if Height(blks[0]) >= untilHeight && |blks| > 1 {
      assert IsChildOf(blks[0], blks[1]);
      if Height(blks[1]) >= untilHeight {
        TailConnected(blks);
        SegmentWalkable(env, bad, blks[1..], untilHeight);
      } else {
        assert Scan(bad, blks[1..], untilHeight) == Scanned(0, BelowTarget);
      }
    }
  }

  lemma ServedIsGot(env: Env, bad: Reasons, ts: TipSet, count: nat, calls: nat)
    requires Obtainable(env, bad, ts) && ts !in env.local && 1 <= count <= env.forkLengthThreshold
    ensures GetBlocks(env, calls, ts, count).Some?
  {
    UsedIffGood(env, calls, ts, count);
  }

  /** A turn over such a chain that asks the network meets our height or goes on over such a chain. */
  lemma FetchReaches(env: Env, bad: Reasons, chain: seq<TipSet>, untilHeight: int, calls: nat, ts: TipSet)
    requires |chain| > 0 && ts == Parents(Last(chain)) && Height(ts) < Height(Last(chain))
    requires Obtainable(env, bad, ts) && Walkable(env, bad, ts, untilHeight) && ts !in env.local
    requires Height(Last(chain)) > untilHeight && env.forkLengthThreshold >= 500
    ensures var (longer, turn) := Fetched(env, bad, chain, untilHeight, calls);
            |longer| > 0 && !turn.Failed? && (turn.GoOn? ==> Walkable(env, bad, Last(longer), untilHeight))
  {
    var n := Window(Height(Last(chain)) - untilHeight);
    ServedIsGot(env, bad, ts, n, calls);
    var blks := GetBlocks(env, calls, ts, n).value;
    SegmentWalkable(env, bad, blks, untilHeight);
    if Scan(bad, blks, untilHeight).end.Exhausted? {
      assert Last(chain + blks[..|blks|]) == Last(blks);
    }
  }

  /** Over such a chain the walk reaches our height, whatever it mixes of local loads and network segments. */
  lemma {:induction false} WalkReaches(env: Env, bad: Reasons, chain: seq<TipSet>, untilHeight: int, calls: nat)
    requires |chain| > 0 && Walkable(env, bad, Last(chain), untilHeight) && env.forkLengthThreshold >= 500
    ensures WalkFrom(env, bad, chain, untilHeight, calls).Reached?
    decreases Depth(Parents(Last(chain)))
  {
    var at := Parents(Last(chain));
    if Height(Last(chain)) > untilHeight {
      if at in env.local {
        WalkReaches(env, bad, chain + [at], untilHeight, calls);
      } else {
        FetchReaches(env, bad, chain, untilHeight, calls, at);
        FetchedLeads(env, bad, chain, untilHeight, calls);
        var (longer, turn) := Fetched(env, bad, chain, untilHeight, calls);
        if turn.GoOn? {
          WalkReaches(env, bad, longer, untilHeight, calls + 1);
        }
      }
    }
  }

  // -- who is blamed

  /** The n tipsets before ts are in the local store, not known to be bad, and reached before the walk ends. */
  ghost predicate LocalRun(env: Env, bad: Reasons, ts: Key, untilHeight: int, n: nat) {
    && (forall j | 1 <= j <= n :: Back(ts, j) in env.local && forall c | c in Back(ts, j) :: c !in bad)
    && (forall j | 0 <= j < n :: FormsTipSet(Back(ts, j)) && Height(Back(ts, j)) > untilHeight)
  }

  /** All blocks of such tipsets are accepted, so a bad block further back is blamed on every one of them. */
  lemma {:induction false} LocalsAreBlamed(env: Env, bad: Reasons, chain: seq<TipSet>, untilHeight: int, calls: nat,
                                           n: nat)
    requires |chain| > 0 && LocalRun(env, bad, Last(chain), untilHeight, n)
    ensures forall j, c | 1 <= j <= n && c in Back(Last(chain), j) ::
              c in Accepting(env, bad, chain, untilHeight, calls)
    decreases n
  {
    if n > 0 {
      var at := Parents(Last(chain));
      assert Back(Last(chain), 0) == Last(chain) && Back(Last(chain), 1) == Back(at, 0) == at;
      forall j | 0 <= j < n
        ensures Back(at, j) == Back(Last(chain), j + 1)
      {
      }
      LocalsAreBlamed(env, bad, chain + [at], untilHeight, calls, n - 1);
      forall j, c | 1 <= j <= n && c in Back(Last(chain), j)
        ensures c in Accepting(env, bad, chain, untilHeight, calls)
      {
        if j > 1 {
          assert c in Back(at, j - 1);
        }
      }
    }
  }

  /** Where a walk stands: at the end of a chain, with so many requests made. */
  datatype Spot = Spot(chain: seq<TipSet>, calls: nat)

  /** The next tipset back is to be had, and not known to be bad. */
  ghost predicate Wanted(bad: Reasons, at: Spot, untilHeight: int) {
    && |at.chain| > 0 && Height(Last(at.chain)) > untilHeight
    && forall c | c in Parents(Last(at.chain)) :: c !in bad
  }

  ghost predicate Loads(env: Env, bad: Reasons, at: Spot, untilHeight: int) {
    Wanted(bad, at, untilHeight) && Parents(Last(at.chain)) in env.local
  }

  /** The segment the peers send for the next tipset back. */
  ghost function Segment(env: Env, at: Spot, untilHeight: int): Option<seq<TipSet>>
    requires |at.chain| > 0 && Height(Last(at.chain)) > untilHeight
  {
    GetBlocks(env, at.calls, Parents(Last(at.chain)), Window(Height(Last(at.chain)) - untilHeight))
  }

  /** It is fetched, with a segment that starts below the end of the chain, has no tipset below the target height and
      no known bad block, and so is taken whole. */
  ghost predicate TakesWhole(env: Env, bad: Reasons, at: Spot, untilHeight: int) {
    && Wanted(bad, at, untilHeight) && Parents(Last(at.chain)) !in env.local
    && match Segment(env, at, untilHeight)
       case None => false
       case Some(blks) =>
         && IsChildOf(Last(at.chain), blks[0])
         && forall ts | ts in blks :: Height(ts) >= untilHeight && forall c | c in ts :: c !in bad
  }

  ghost predicate GoesOn(env: Env, bad: Reasons, at: Spot, untilHeight: int) {
    Loads(env, bad, at, untilHeight) || TakesWhole(env, bad, at, untilHeight)
  }

  ghost function NextSpot(env: Env, bad: Reasons, at: Spot, untilHeight: int): (next: Spot)
    requires GoesOn(env, bad, at, untilHeight)
    ensures |next.chain| > 0
  {
    if Loads(env, bad, at, untilHeight) then Spot(at.chain + [Parents(Last(at.chain))], at.calls)
    else Spot(at.chain + Segment(env, at, untilHeight).value, at.calls + 1)
  }

  /** Where the walk stands n turns later, if it takes that many. */
  ghost function AfterTurns(env: Env, bad: Reasons, at: Spot, untilHeight: int, n: nat): Option<Spot>
    decreases n
  {
    if n == 0 then Some(at)
    else if GoesOn(env, bad, at, untilHeight) then
      AfterTurns(env, bad, NextSpot(env, bad, at, untilHeight), untilHeight, n - 1)
    else None
  }

  /** The block is in a tipset that was loaded locally, or in the first one of a segment that was taken whole. */
  ghost predicate InTurn(env: Env, bad: Reasons, at: Spot, untilHeight: int, n: nat, c: Cid) {
    match AfterTurns(env, bad, at, untilHeight, n)
    case None => false
    case Some(spot) => GoesOn(env, bad, spot, untilHeight) && c in Parents(Last(spot.chain))
  }

  lemma {:induction false} ScansWhole(bad: Reasons, blks: seq<TipSet>, untilHeight: int)
    ensures Scan(bad, blks, untilHeight).end.Exhausted?
            <==> forall ts | ts in blks :: Height(ts) >= untilHeight && forall c | c in ts :: c !in bad
  {
    if blks != [] {
      ScansWhole(bad, blks[1..], untilHeight);
      assert blks == [blks[0]] + blks[1..];
    }
  }

  lemma GoesOnIffWhole(env: Env, bad: Reasons, at: Spot, untilHeight: int)
    requires Wanted(bad, at, untilHeight) && Parents(Last(at.chain)) !in env.local
    ensures var (longer, turn) := Fetched(env, bad, at.chain, untilHeight, at.calls);
            && (turn.GoOn? <==> TakesWhole(env, bad, at, untilHeight))
            && (turn.GoOn? ==> longer == at.chain + Segment(env, at, untilHeight).value)
  {
    var blks := Segment(env, at, untilHeight);
    if blks.Some? {
      ScansWhole(bad, blks.value, untilHeight);
    }
  }

  lemma LoadAccepts(env: Env, bad: Reasons, at: Spot, untilHeight: int, next: seq<TipSet>, rest: seq<Cid>)
    requires Loads(env, bad, at, untilHeight) && next == at.chain + [Parents(Last(at.chain))]
    requires rest == Accepting(env, bad, next, untilHeight, at.calls)
    ensures Accepting(env, bad, at.chain, untilHeight, at.calls) == Parents(Last(at.chain)) + rest
    ensures Depth(Parents(Last(next))) < Depth(Parents(Last(at.chain)))
  {
  }

  lemma WholeAccepts(env: Env, bad: Reasons, at: Spot, untilHeight: int, next: seq<TipSet>, rest: seq<Cid>)
    requires TakesWhole(env, bad, at, untilHeight) && next == at.chain + Segment(env, at, untilHeight).value
    requires rest == Accepting(env, bad, next, untilHeight, at.calls + 1)
    ensures Accepting(env, bad, at.chain, untilHeight, at.calls) == Parents(Last(at.chain)) + rest
  {
    AcceptsIfGoesOn(env, bad, at.chain, untilHeight, at.calls);
    GoesOnIffWhole(env, bad, at, untilHeight);
  }

  lemma WholeGoesBack(env: Env, bad: Reasons, at: Spot, untilHeight: int, next: seq<TipSet>)
    requires TakesWhole(env, bad, at, untilHeight) && next == at.chain + Segment(env, at, untilHeight).value
    ensures Depth(Parents(Last(next))) < Depth(Parents(Last(at.chain)))
  {
    var blks := Segment(env, at, untilHeight).value;
    SegmentDepth(blks);
    assert Last(next) == Last(blks);
  }

  lemma OtherwiseNone(env: Env, bad: Reasons, at: Spot, untilHeight: int)
    requires |at.chain| > 0 && !GoesOn(env, bad, at, untilHeight)
    ensures Accepting(env, bad, at.chain, untilHeight, at.calls) == []
  {
    if Wanted(bad, at, untilHeight) {
      AcceptsIfGoesOn(env, bad, at.chain, untilHeight, at.calls);
      GoesOnIffWhole(env, bad, at, untilHeight);
    }
  }

  /** A turn that goes on accepts the tipset it starts from, and leads strictly further back. */
  lemma TurnAccepts(env: Env, bad: Reasons, at: Spot, untilHeight: int, all: seq<Cid>, next: Spot, rest: seq<Cid>)
    requires GoesOn(env, bad, at, untilHeight) && next == NextSpot(env, bad, at, untilHeight)
    requires all == Accepting(env, bad, at.chain, untilHeight, at.calls)
    requires rest == Accepting(env, bad, next.chain, untilHeight, next.calls)
    ensures all == Parents(Last(at.chain)) + rest
    ensures Depth(Parents(Last(next.chain))) < Depth(Parents(Last(at.chain)))
  {
    if Loads(env, bad, at, untilHeight) {
      LoadAccepts(env, bad, at, untilHeight, next.chain, rest);
    } else {
      WholeAccepts(env, bad, at, untilHeight, next.chain, rest);
      WholeGoesBack(env, bad, at, untilHeight, next.chain);
    }
  }

  /** The first turn, or a later one. */
  lemma FirstOrLater(env: Env, bad: Reasons, at: Spot, untilHeight: int, c: Cid)
    requires GoesOn(env, bad, at, untilHeight)
    ensures (exists n: nat :: InTurn(env, bad, at, untilHeight, n, c))
            <==> || c in Parents(Last(at.chain))
                 || exists n: nat :: InTurn(env, bad, NextSpot(env, bad, at, untilHeight), untilHeight, n, c)
  {
    var next := NextSpot(env, bad, at, untilHeight);
    assert InTurn(env, bad, at, untilHeight, 0, c) <==> c in Parents(Last(at.chain));
    if n: nat :| InTurn(env, bad, at, untilHeight, n, c) {
      if n > 0 {
        assert InTurn(env, bad, next, untilHeight, n - 1, c);
      }
    }
    if n: nat :| InTurn(env, bad, next, untilHeight, n, c) {
      assert InTurn(env, bad, at, untilHeight, n + 1, c);
    }
  }

  lemma {:induction false} AcceptedInTurn(env: Env, bad: Reasons, at: Spot, untilHeight: int, all: seq<Cid>, c: Cid)
    requires |at.chain| > 0 && all == Accepting(env, bad, at.chain, untilHeight, at.calls)
    ensures c in all <==> exists n: nat :: InTurn(env, bad, at, untilHeight, n, c)
    decreases Depth(Parents(Last(at.chain)))
  {
    if GoesOn(env, bad, at, untilHeight) {
      var next := NextSpot(env, bad, at, untilHeight);
      var rest := Accepting(env, bad, next.chain, untilHeight, next.calls);
      TurnAccepts(env, bad, at, untilHeight, all, next, rest);
      FirstOrLater(env, bad, at, untilHeight, c);
      AcceptedInTurn(env, bad, next, untilHeight, rest, c);
    } else {
      OtherwiseNone(env, bad, at, untilHeight);
    }
  }

  /** Which blocks a bad block further back is blamed on: those of the tipsets loaded locally, and those of the first
      tipset of every segment taken whole. */
  lemma BlamedExactly(env: Env, bad: Reasons, incoming: TipSet, untilHeight: int, c: Cid)
    ensures c in Accepting(env, bad, [incoming], untilHeight, 0)
            <==> exists n: nat :: InTurn(env, bad, Spot([incoming], 0), untilHeight, n, c)
  {
    AcceptedInTurn(env, bad, Spot([incoming], 0), untilHeight, Accepting(env, bad, [incoming], untilHeight, 0), c);
  }

  /** A fork that may not be followed marks the blocks of the announced tipset and no others. */
  lemma DeniedMarks(before: Reasons, incoming: TipSet, e: CollectError, accepted: seq<Cid>, c: Cid)
    requires e == ForkFailed(ForkTooLong) || e == ForkFailed(ForkCheckpoint)
    ensures MarksBlock(MarksOf(before, incoming, e, accepted), c) <==> c in incoming
  {
    var marks := MarksOf(before, incoming, e, accepted);
    if c in incoming {
      var i :| 0 <= i < |incoming| && incoming[i] == c;
      assert marks[i].block == c;
    }
  }

  /** So all of a chain walked is marked exactly when it is the announced tipset alone. */
  lemma SubchainDeniedIff(before: Reasons, chain: seq<TipSet>, e: CollectError, accepted: seq<Cid>)
    requires |chain| > 0 && Linked(chain) && (e == ForkFailed(ForkTooLong) || e == ForkFailed(ForkCheckpoint))
    ensures (forall c | InChain(c, chain) :: MarksBlock(MarksOf(before, chain[0], e, accepted), c)) <==> |chain| == 1
  {
    if |chain| == 1 {
      forall c | InChain(c, chain)
        ensures MarksBlock(MarksOf(before, chain[0], e, accepted), c)
      {
        DeniedMarks(before, chain[0], e, accepted, c);
      }
    } else {
      var c := chain[1][0];
      assert c in chain[1] && InChain(c, chain);
      DeniedMarks(before, chain[0], e, accepted, c);
      assert Parents(chain[0]) == chain[1];
      NotOwnParent(chain[1]);
    }
  }

  // -- fast forward

  /** incoming lies n steps above known, heights falling on the way. */
  ghost predicate OnTop(incoming: TipSet, known: TipSet, n: nat) {
    && n >= 1 && Back(incoming, n) == known
    && forall j | 0 <= j < n :: Height(Back(incoming, j)) > Height(Back(incoming, j + 1))
  }

  /** All tipsets from the parent of incoming down to known can be had and are not known to be bad. */
  ghost predicate PathClear(env: Env, bad: Reasons, incoming: TipSet, n: nat) {
    forall j | 1 <= j <= n :: Obtainable(env, bad, Back(incoming, j))
  }

  lemma {:induction false} PathHeights(incoming: TipSet, known: TipSet, n: nat, j: nat)
    requires OnTop(incoming, known, n) && j <= n
    ensures Height(Back(incoming, j)) >= Height(known) + (n - j)
    decreases n - j
  {
    if j < n {
      PathHeights(incoming, known, n, j + 1);
    }
  }

  lemma {:induction false} PathWalkable(env: Env, bad: Reasons, incoming: TipSet, known: TipSet, n: nat, j: nat)
    requires OnTop(incoming, known, n) && PathClear(env, bad, incoming, n) && j <= n
    ensures Walkable(env, bad, Back(incoming, j), Height(known) + 1)
    decreases n - j
  {
    if j < n {
      PathWalkable(env, bad, incoming, known, n, j + 1);
      BackSum(incoming, j, 1);
      assert Parents(Back(incoming, j)) == Back(incoming, j + 1);
      PathHeights(incoming, known, n, j);
      assert Obtainable(env, bad, Back(incoming, j + 1));
    }
  }

  lemma PathEnd(incoming: TipSet, known: TipSet, n: nat, m: nat, top: TipSet)
    requires OnTop(incoming, known, n) && m < n && top == Back(incoming, m)
    requires Height(top) <= Height(known) + 1 || Height(Parents(top)) < Height(known) + 1
    ensures m == n - 1 && IsChildOf(top, known) && top != known
  {
    BackSum(incoming, m, 1);
    assert Parents(top) == Back(incoming, m + 1);
    PathHeights(incoming, known, n, m);
    PathHeights(incoming, known, n, m + 1);
    assert Height(Back(incoming, m)) > Height(Back(incoming, m + 1));
  }

  /** However the walk goes, it ends with the n tipsets above known. */
  lemma WalkEndsOnTop(env: Env, bad: Reasons, incoming: TipSet, known: TipSet, n: nat)
    requires incoming != known && OnTop(incoming, known, n)
    requires WalkFrom(env, bad, [incoming], Height(known) + 1, 0).Reached?
    ensures var base := Trim(WalkFrom(env, bad, [incoming], Height(known) + 1, 0).chain, known);
            |base| == n && IsChildOf(Last(base), known) && Linked(base)
  {
    WalkIsLinked(env, bad, [incoming], Height(known) + 1, 0);
    WalkStops(env, bad, [incoming], Height(known) + 1, 0);
    var chain := WalkFrom(env, bad, [incoming], Height(known) + 1, 0).chain;
    var m := |chain| - 1;
    LinkedIsBack(chain, m);
    if m > n {
      LinkedIsBack(chain, n);
      assert false;
    } else if m == n {
      LinkedIsBack(chain, n - 1);
      assert Parents(chain[n - 1]) == chain[n] == known;
      assert Height(Back(incoming, n - 1)) > Height(Back(incoming, n));
      TrimmedEnd(chain, known);
    } else {
      PathEnd(incoming, known, n, m, Last(chain));
    }
  }

  lemma CollectedOnTop(env: Env, bad: Reasons, incoming: TipSet, known: TipSet, ignoreCheckpoint: bool)
    requires incoming != known && Acceptable(incoming, bad)
    requires WalkFrom(env, bad, [incoming], Height(known) + 1, 0).Reached?
    requires IsChildOf(Last(Trim(WalkFrom(env, bad, [incoming], Height(known) + 1, 0).chain, known)), known)
    ensures Collected(env, bad, incoming, known, ignoreCheckpoint)
         == Some(Trim(WalkFrom(env, bad, [incoming], Height(known) + 1, 0).chain, known))
  {
    var base := Trim(WalkFrom(env, bad, [incoming], Height(known) + 1, 0).chain, known);
    assert base + [] == base;
  }

  /** incoming is n steps above known over obtainable tipsets, and its beacon entries are in order. */
  ghost predicate Forward(env: Env, bad: Reasons, incoming: TipSet, known: TipSet, n: nat) {
    && OnTop(incoming, known, n) && PathClear(env, bad, incoming, n)
    && BeaconSorted(incoming[0].beacon) && BeaconsAgree(incoming) && env.forkLengthThreshold >= 500
  }

  /** A head on top of ours, over tipsets that can be had and are not known to be bad, is collected: the result is
      exactly the tipsets between. */
  lemma FastForward(env: Env, bad: Reasons, incoming: TipSet, known: TipSet, n: nat, ignoreCheckpoint: bool)
    requires incoming != known && Forward(env, bad, incoming, known, n)
    ensures var r := Collected(env, bad, incoming, known, ignoreCheckpoint);
            r.Some? && |r.value| == n && forall j | 0 <= j < n :: r.value[j] == Back(incoming, j)
  {
    BackSum(incoming, 0, 1);
    assert Obtainable(env, bad, Back(incoming, 1)) && Back(incoming, 1) == Parents(incoming);
    PathWalkable(env, bad, incoming, known, n, 0);
    WalkReaches(env, bad, [incoming], Height(known) + 1, 0);
    WalkEndsOnTop(env, bad, incoming, known, n);
    CollectedOnTop(env, bad, incoming, known, ignoreCheckpoint);
    var base := Trim(WalkFrom(env, bad, [incoming], Height(known) + 1, 0).chain, known);
    forall j | 0 <= j < n
      ensures base[j] == Back(incoming, j)
    {
      LinkedIsBack(base, j);
    }
  }

  lemma ForwardIsCollected(env: Env, bad: Reasons, incoming: TipSet, known: TipSet, ignoreCheckpoint: bool)
    requires incoming != known
    ensures (exists n :: Forward(env, bad, incoming, known, n)) ==>
              Collected(env, bad, incoming, known, ignoreCheckpoint).Some?
  {
    if n: nat :| Forward(env, bad, incoming, known, n) {
      FastForward(env, bad, incoming, known, n, ignoreCheckpoint);
    }
  }
}
