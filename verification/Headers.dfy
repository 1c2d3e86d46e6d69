/** Collecting the headers between an announced tipset and our own chain. */
module Headers {
  import opened Outcomes
  import opened Tipsets
  import opened Forks
  import opened BadBlocks

  datatype CollectError =
    | LinkedToBad(block: Cid)
    | BeaconOrder
    | BeaconMismatch
    | ContainsBad(block: Cid)
    | BlocksUnavailable
    | NotConnected
    | ParentUnavailable
    | ForkFailed(reason: ForkError)

  const WINDOW := 500

  predicate BeaconSorted(entries: seq<BeaconEntry>) {
    forall i | 0 < i < |entries| :: entries[i - 1].round <= entries[i].round
  }

  predicate BeaconsAgree(ts: TipSet) {
    forall b | b in ts :: b.beacon == ts[0].beacon
  }

  /** How a collected chain may meet ours: as a child of `known`, as a child of its parent, or at a strict
      ancestor of `known` where a fork may join. */
  ghost predicate Meets(env: Env, known: TipSet, ignoreCheckpoint: bool, last: TipSet) {
    || IsChildOf(last, known)
    || IsChildOf(last, Parents(known))
    || (StrictAncestor(last, known) && exists i :: JoinsAt(env, known, ignoreCheckpoint, last, i))
  }

  /** The chain that ends in `base` is no mere extension of ours, so where it left ours has to be found. */
  predicate NeedsFork(base: TipSet, known: TipSet) {
    !IsChildOf(base, known) && !IsChildOf(base, Parents(known))
  }

  /** What is fetched and appended to reach our chain from `base`. */
  ghost function Fragment(env: Env, call: nat, base: TipSet, known: TipSet, ignoreCheckpoint: bool): seq<TipSet> {
    var tips := GetBlocks(env, call, Parents(base), env.forkLengthThreshold);
    if NeedsFork(base, known) && tips.Some? then UpToJoin(env, known, ignoreCheckpoint, tips.value) else []
  }

  /** Whether the chain that ends in `base` can be connected to `known`. */
  ghost predicate CanConnect(env: Env, call: nat, base: TipSet, known: TipSet, ignoreCheckpoint: bool) {
    || IsChildOf(base, known)
    || (Parents(known) in env.local &&
        (|| IsChildOf(base, Parents(known))
         || var tips := GetBlocks(env, call, Parents(base), env.forkLengthThreshold);
            tips.Some? && Joins(env, known, ignoreCheckpoint, tips.value)))
  }

  /** The chain without a last element equal to `known`. */
  function Trim(chain: seq<TipSet>, known: TipSet): (r: seq<TipSet>)
    requires |chain| > 0 && chain[0] != known
    ensures |r| > 0 && r[0] == chain[0] && r <= chain
  {
    if Last(chain) == known then chain[..|chain| - 1] else chain
  }

  lemma LinkedOn(chain: seq<TipSet>, more: seq<TipSet>)
    requires |chain| > 0 && |more| > 0 && Linked(chain) && Connected(more) && Parents(Last(chain)) == more[0]
    ensures Linked(chain + more) && Last(chain + more) == Last(more)
  {
    var all := chain + more;
    forall i | 0 <= i < |all| - 1
      ensures Parents(all[i]) == all[i + 1]
    {
      if i >= |chain| {
        assert IsChildOf(more[i - |chain|], more[i - |chain| + 1]);
      }
    }
  }

  lemma JoinMeets(env: Env, known: TipSet, ignoreCheckpoint: bool, last: TipSet)
    requires exists i :: JoinsAt(env, known, ignoreCheckpoint, last, i)
    ensures Meets(env, known, ignoreCheckpoint, last) && last != known
  {
    var i :| JoinsAt(env, known, ignoreCheckpoint, last, i);
    assert Back(known, i) == last;
    BackDepth(known, i);
  }

  /** Why a chain that ends in `base` is not connected, if it is not. */
  ghost function ConnectError(env: Env, call: nat, base: TipSet, known: TipSet, ignoreCheckpoint: bool): CollectError {
    if Parents(known) !in env.local then ParentUnavailable
    else match GetBlocks(env, call, Parents(base), env.forkLengthThreshold)
      case None => ForkFailed(if CheckpointedHead(env, known, ignoreCheckpoint) then ForkCheckpoint else FetchFailed)
      case Some(tips) => ForkFailed(SearchError(env, known, ignoreCheckpoint, tips, 0))
  }

  /** The end of collectHeaders: connect the chain walked so far to `known`, resolving a fork if need be. */
  method ConnectToKnown(env: Env, call: nat, chain: seq<TipSet>, known: TipSet, ignoreCheckpoint: bool)
    returns (r: Result<seq<TipSet>, CollectError>)
    requires |chain| > 0 && chain[0] != known && Linked(chain)
    requires Descending(known) && env.forkLengthThreshold >= 1
    ensures r.Ok? <==> CanConnect(env, call, Last(Trim(chain, known)), known, ignoreCheckpoint)
    ensures r.Ok? ==>
              && r.value == Trim(chain, known) + Fragment(env, call, Last(Trim(chain, known)), known, ignoreCheckpoint)
              && Linked(r.value)
              && Last(r.value) != known
              && Meets(env, known, ignoreCheckpoint, Last(r.value))
    ensures r.Ok? && r.value != Trim(chain, known) ==>
              exists i :: JoinsAt(env, known, ignoreCheckpoint, Last(r.value), i)
    ensures r.Err? ==> r.error == ConnectError(env, call, Last(Trim(chain, known)), known, ignoreCheckpoint)
  {
    var blockSet := chain;
    var base := Last(blockSet);
    if base == known {
      blockSet := blockSet[..|blockSet| - 1];
      base := Last(blockSet);
    }
    if IsChildOf(base, known) {
      return Ok(blockSet);
    }
    if Parents(known) !in env.local {
      return Err(ParentUnavailable);
    }
    if IsChildOf(base, Parents(known)) {
      return Ok(blockSet);
    }
    var fork := SyncFork(env, call, base, known, ignoreCheckpoint);
    if fork.Err? {
      return Err(ForkFailed(fork.error));
    }
    r := Ok(blockSet + fork.value);
    LinkedOn(blockSet, fork.value);
    JoinMeets(env, known, ignoreCheckpoint, Last(fork.value));
  }

  /** A block c marked bad on account of `culprit`: both lie on the chain of `incoming`, c strictly above. */
  ghost predicate Descends(incoming: TipSet, c: Cid, culprit: Cid) {
    exists i, j :: 0 <= i < j && c in Back(incoming, i) && culprit in Back(incoming, j)
  }

  /** Every new or changed entry satisfies `ok`. */
  ghost predicate ChangesOnly(before: Reasons, after: Reasons, ok: (Cid, BadBlockReason) -> bool) {
    forall c | c in after && !(c in before && before[c] == after[c]) :: ok(c, after[c])
  }

  /** What a rejection may write into the cache. */
  ghost predicate MarksFor(before: Reasons, after: Reasons, incoming: TipSet, e: CollectError) {
    match e
    case LinkedToBad(x) => BlamesDescendants(before, after, incoming, x)
    case ContainsBad(x) => BlamesDescendants(before, after, incoming, x)
    case BeaconOrder => ChangesOnly(before, after, (c, why) => c == incoming[0])
    case ForkFailed(reason) =>
      if reason == ForkTooLong || reason == ForkCheckpoint
      then ChangesOnly(before, after, (c, why) => c in incoming && why == NewBadBlockReason(incoming, ForkPastFinality))
      else after == before
    case _ => after == before
  }

  /** A chain rejected for a bad block x: only blocks of tipsets that descend from the one
      holding x are newly marked, and their reasons go back to the reason x had. */
  ghost predicate BlamesDescendants(before: Reasons, after: Reasons, incoming: TipSet, x: Cid) {
    x in before && ChangesOnly(before, after, (c, why) => Descends(incoming, c, x) && Root(why) == Root(before[x]))
  }

  /** The marks a rejection makes: every block of the announced tipset, or all blocks accepted so far, get the reason of
      the bad block linked on; bad beacon entries mark one block, and a fork that may not be followed all of them. */
  function MarksOf(before: Reasons, incoming: TipSet, e: CollectError, accepted: seq<Cid>): seq<Mark> {
    match e
    case LinkedToBad(x) => if x in before then MarkEach(incoming, LinkReason(before[x], LinkedTo(x))) else []
    case ContainsBad(x) => if x in before then MarkEach(accepted, LinkReason(before[x], ChainContained(x))) else []
    case BeaconOrder => [Mark(incoming[0], NewBadBlockReason(incoming, WrongBeaconOrder))]
    case ForkFailed(reason) =>
      if reason == ForkTooLong || reason == ForkCheckpoint
      then MarkEach(incoming, NewBadBlockReason(incoming, ForkPastFinality)) else []
    case _ => []
  }

  ghost predicate MarksBlock(marks: seq<Mark>, c: Cid) {
    exists k :: 0 <= k < |marks| && marks[k].block == c
  }

  /** The marks are on these blocks and no others. */
  ghost predicate MarksExactly(marks: seq<Mark>, blocks: seq<Cid>) {
    forall c :: MarksBlock(marks, c) <==> c in blocks
  }

  /** Their reasons say `why` and go back to the reason x was known to be bad for. */
  ghost predicate BlamesOn(marks: seq<Mark>, before: Reasons, x: Cid, why: Why) {
    && x in before
    && forall k | 0 <= k < |marks| :: marks[k].reason.reason == why && Root(marks[k].reason) == Root(before[x])
  }

  /** Their reasons are new and name the announced tipset. */
  ghost predicate BlamesAnew(marks: seq<Mark>, incoming: TipSet, why: Why) {
    forall k | 0 <= k < |marks| :: marks[k].reason == BadBlockReason(why, incoming, None)
  }

  /** The marks each error is due: on all blocks accepted, or all of the announced tipset, on account of the bad block;
      on the first block for its beacon entries; on all of the tipset for its fork; and none for any other error. */
  ghost predicate MarksDue(marks: seq<Mark>, before: Reasons, incoming: TipSet, e: CollectError, accepted: seq<Cid>) {
    match e
    case ContainsBad(x) => MarksExactly(marks, accepted) && BlamesOn(marks, before, x, ChainContained(x))
    case LinkedToBad(x) => MarksExactly(marks, incoming) && BlamesOn(marks, before, x, LinkedTo(x))
    case BeaconOrder => MarksExactly(marks, [incoming[0]]) && BlamesAnew(marks, incoming, WrongBeaconOrder)
    case ForkFailed(reason) =>
      if reason == ForkTooLong || reason == ForkCheckpoint
      then MarksExactly(marks, incoming) && BlamesAnew(marks, incoming, ForkPastFinality)
      else marks == []
    case _ => marks == []
  }

  lemma MarkEachExactly(blocks: seq<Cid>, r: BadBlockReason)
    ensures MarksExactly(MarkEach(blocks, r), blocks)
  {
    var marks := MarkEach(blocks, r);
    forall c
      ensures MarksBlock(marks, c) <==> c in blocks
    {
      if c in blocks {
        var i :| 0 <= i < |blocks| && blocks[i] == c;
        assert marks[i].block == c;
      }
    }
  }

  lemma MarksOfAreDue(before: Reasons, incoming: TipSet, e: CollectError, accepted: seq<Cid>)
    requires (e.LinkedToBad? || e.ContainsBad?) ==> e.block in before
    ensures MarksDue(MarksOf(before, incoming, e, accepted), before, incoming, e, accepted)
  {
    match e
    case ContainsBad(x) => MarkEachExactly(accepted, LinkReason(before[x], ChainContained(x)));
    case LinkedToBad(x) => MarkEachExactly(incoming, LinkReason(before[x], LinkedTo(x)));
    case BeaconOrder =>
      var marks := MarksOf(before, incoming, e, accepted);
      assert marks == MarkEach([incoming[0]], NewBadBlockReason(incoming, WrongBeaconOrder));
      MarkEachExactly([incoming[0]], NewBadBlockReason(incoming, WrongBeaconOrder));
    case ForkFailed(reason) => MarkEachExactly(incoming, NewBadBlockReason(incoming, ForkPastFinality));
    case _ =>
  }

  /** The marks made since are the ones due. */
  ghost predicate NewlyDue(earlier: seq<Mark>, now: seq<Mark>, before: Reasons, incoming: TipSet, e: CollectError,
                           accepted: seq<Cid>) {
    earlier <= now && MarksDue(now[|earlier|..], before, incoming, e, accepted)
  }

  lemma DueNow(earlier: seq<Mark>, now: seq<Mark>, before: Reasons, incoming: TipSet, e: CollectError,
               accepted: seq<Cid>)
    requires (e.LinkedToBad? || e.ContainsBad?) ==> e.block in before
    requires now == earlier + MarksOf(before, incoming, e, accepted)
    ensures NewlyDue(earlier, now, before, incoming, e, accepted)
  {
    MarksOfAreDue(before, incoming, e, accepted);
    assert now[|earlier|..] == MarksOf(before, incoming, e, accepted);
  }

  /** None of chain[1..m] is known to be bad. */
  ghost predicate CleanUpTo(chain: seq<TipSet>, m: nat, bad: Reasons) {
    forall i, c | 1 <= i < m && i < |chain| && c in chain[i] :: c !in bad
  }

  function FirstBadIn(cids: Key, bad: Reasons): (r: Option<Cid>)
    ensures r.None? <==> forall c | c in cids :: c !in bad
    ensures r.Some? ==> r.value in cids && r.value in bad
  {
    if cids == [] then None else if cids[0] in bad then Some(cids[0]) else FirstBadIn(cids[1..], bad)
  }

  method FindBad(bad: BadBlockCache, cids: Key) returns (r: Option<Cid>)
    ensures r == FirstBadIn(cids, bad.badBlocks)
  {
    for i := 0 to |cids|
      invariant FirstBadIn(cids, bad.badBlocks) == FirstBadIn(cids[i..], bad.badBlocks)
    {
      if cids[i] in bad.badBlocks {
        return Some(cids[i]);
      }
    }
    return None;
  }

  ghost predicate InChain(c: Cid, chain: seq<TipSet>) {
    exists i :: 0 <= i < |chain| && c in chain[i]
  }

  lemma InChainExtends(chain: seq<TipSet>, more: seq<TipSet>)
    ensures forall c | InChain(c, chain) :: InChain(c, chain + more)
    ensures forall ts, c | ts in more && c in ts :: InChain(c, chain + more)
  {
    forall c | InChain(c, chain)
      ensures InChain(c, chain + more)
    {
      var i :| 0 <= i < |chain| && c in chain[i];
      assert c in (chain + more)[i];
    }
    forall ts, c | ts in more && c in ts
      ensures InChain(c, chain + more)
    {
      var i :| 0 <= i < |more| && more[i] == ts;
      assert c in (chain + more)[|chain| + i];
    }
  }

  /** What holds of the chain walked so far: it runs back from `incoming`, none of it but `incoming`
      is known to be bad, and all accepted blocks lie on it. */
  ghost predicate Walked(incoming: TipSet, chain: seq<TipSet>, accepted: seq<Cid>, bad: Reasons) {
    && |chain| > 0 && chain[0] == incoming && Linked(chain)
    && CleanUpTo(chain, |chain|, bad)
    && forall c | c in accepted :: InChain(c, chain)
  }

  lemma WalkOn(incoming: TipSet, chain: seq<TipSet>, accepted: seq<Cid>, bad: Reasons, ts: TipSet)
    requires Walked(incoming, chain, accepted, bad) && Parents(Last(chain)) == ts
    requires forall c | c in ts :: c !in bad
    ensures Walked(incoming, chain + [ts], accepted, bad)
    ensures Walked(incoming, chain + [ts], accepted + ts, bad)
  {
    InChainExtends(chain, [ts]);
  }

  lemma WalkedNext(incoming: TipSet, chain: seq<TipSet>)
    requires |chain| > 0 && chain[0] == incoming && Linked(chain)
    ensures Back(incoming, |chain|) == Parents(Last(chain))
  {
    LinkedIsBack(chain, |chain| - 1);
    BackSum(incoming, |chain| - 1, 1);
  }

  /** The next tipset back holds the bad block x: blame it on everything accepted so far. */
  method Reject(bad: BadBlockCache, incoming: TipSet, chain: seq<TipSet>, accepted: seq<Cid>, x: Cid, why: Why)
    requires bad.Valid() && Walked(incoming, chain, accepted, bad.badBlocks)
    requires x in bad.badBlocks && x in Parents(Last(chain))
    modifies bad
    ensures BlamesDescendants(old(bad.badBlocks), bad.badBlocks, incoming, x)
    ensures bad.Valid() && old(bad.ops) <= bad.ops
    ensures Marks(bad.ops) == old(Marks(bad.ops)) + MarkEach(accepted, LinkReason(old(bad.badBlocks)[x], why))
  {
    WalkedNext(incoming, chain);
    forall c | c in accepted
      ensures Descends(incoming, c, x)
    {
      var i :| 0 <= i < |chain| && c in chain[i];
      LinkedIsBack(chain, i);
    }
    bad.TracesBack();
    LinkIsProper(bad.ops, x, why);
    bad.AddAll(accepted, LinkReason(bad.badBlocks[x], why));
  }

  /** Looks for a known bad block in the next tipset back and, if there is one, rejects the chain. */
  method CheckNext(bad: BadBlockCache, incoming: TipSet, chain: seq<TipSet>, accepted: seq<Cid>)
    returns (r: Option<Cid>)
    requires bad.Valid() && Walked(incoming, chain, accepted, bad.badBlocks)
    modifies bad
    ensures r == FirstBadIn(Parents(Last(chain)), old(bad.badBlocks))
    ensures bad.Valid() && old(bad.ops) <= bad.ops
    ensures r.None? ==> bad.badBlocks == old(bad.badBlocks) && bad.ops == old(bad.ops)
    ensures r.Some? ==>
              && BlamesDescendants(old(bad.badBlocks), bad.badBlocks, incoming, r.value)
              && Marks(bad.ops)
                 == old(Marks(bad.ops)) + MarksOf(old(bad.badBlocks), incoming, ContainsBad(r.value), accepted)
              && NewlyDue(old(Marks(bad.ops)), Marks(bad.ops), old(bad.badBlocks), incoming, ContainsBad(r.value),
                          accepted)
  {
    r := FindBad(bad, Parents(Last(chain)));
    if r.Some? {
      Reject(bad, incoming, chain, accepted, r.value, ChainContained(r.value));
      DueNow(old(Marks(bad.ops)), Marks(bad.ops), old(bad.badBlocks), incoming, ContainsBad(r.value), accepted);
    }
  }

  datatype SegmentEnd = Exhausted | BelowTarget | HitBad(block: Cid)

  /** How far into a fetched segment the chain grows, and why it stops there. */
  datatype Scanned = Scanned(kept: nat, end: SegmentEnd)

  function Scan(bad: Reasons, blks: seq<TipSet>, untilHeight: int): (r: Scanned)
    ensures r.kept <= |blks| && (r.end.Exhausted? <==> r.kept == |blks|)
    ensures forall k, c | 0 <= k < r.kept && c in blks[k] :: c !in bad
    ensures r.end.BelowTarget? ==> Height(blks[r.kept]) < untilHeight
  {
    if blks == [] then Scanned(0, Exhausted)
    else if Height(blks[0]) < untilHeight then Scanned(0, BelowTarget)
    else match FirstBadIn(blks[0], bad)
      case Some(x) => Scanned(0, HitBad(x))
      case None =>
        var r := Scan(bad, blks[1..], untilHeight);
        Scanned(r.kept + 1, r.end)
  }

  /** Append a fetched segment, stopping at a tipset below the target height or at a bad block. */
  method AppendSegment(bad: BadBlockCache, incoming: TipSet, chain: seq<TipSet>, accepted: seq<Cid>,
                       blks: seq<TipSet>, untilHeight: int)
    returns (blockSet: seq<TipSet>, end: SegmentEnd)
    requires bad.Valid() && Walked(incoming, chain, accepted, bad.badBlocks)
    requires |blks| > 0 && Connected(blks) && Parents(Last(chain)) == blks[0]
    modifies bad
    ensures bad.Valid() && old(bad.ops) <= bad.ops
    ensures var scan := Scan(old(bad.badBlocks), blks, untilHeight);
            end == scan.end && blockSet == chain + blks[..scan.kept]
    ensures end.HitBad? ==>
              && BlamesDescendants(old(bad.badBlocks), bad.badBlocks, incoming, end.block)
              && Marks(bad.ops)
                 == old(Marks(bad.ops)) + MarksOf(old(bad.badBlocks), incoming, ContainsBad(end.block), accepted)
    ensures !end.HitBad? ==>
              && bad.badBlocks == old(bad.badBlocks) && bad.ops == old(bad.ops)
              && Walked(incoming, blockSet, accepted, bad.badBlocks)
  {
    blockSet := chain;
    ghost var all := Scan(bad.badBlocks, blks, untilHeight);
    for k := 0 to |blks|
      invariant bad.badBlocks == old(bad.badBlocks) && bad.Valid() && bad.ops == old(bad.ops)
      invariant blockSet == chain + blks[..k] && Walked(incoming, blockSet, accepted, bad.badBlocks)
      invariant var scan := Scan(bad.badBlocks, blks[k..], untilHeight); all == Scanned(k + scan.kept, scan.end)
    {
      var b := blks[k];
      assert k > 0 ==> IsChildOf(blks[k - 1], b);
      assert Parents(Last(blockSet)) == b;
      assert blks[k..][1..] == blks[k + 1..];
      if Height(b) < untilHeight {
        return blockSet, BelowTarget;
      }
      var bBad := CheckNext(bad, incoming, blockSet, accepted);
      if bBad.Some? {
        return blockSet, HitBad(bBad.value);
      }
      WalkOn(incoming, blockSet, accepted, bad.badBlocks, b);
      blockSet := blockSet + [b];
    }
    return blockSet, Exhausted;
  }

  /** Where walking back from the end of `chain` leads, given the peers' answers from the `calls`-th request on. */
  datatype Walk = Reached(chain: seq<TipSet>, calls: nat) | Stuck(error: CollectError)

  function Window(gap: int): (n: int)
    ensures n <= gap && n <= 500 && (n == gap || n == 500)
  {
    if gap < WINDOW then gap else WINDOW
  }

  ghost function WalkFrom(env: Env, bad: Reasons, chain: seq<TipSet>, untilHeight: int, calls: nat): (w: Walk)
    requires |chain| > 0
    ensures w.Reached? ==> chain <= w.chain
    decreases Depth(Parents(Last(chain)))
  {
    var at, gap := Parents(Last(chain)), Height(Last(chain)) - untilHeight;
    if gap <= 0 then Reached(chain, calls)
    else if FirstBadIn(at, bad).Some? then Stuck(ContainsBad(FirstBadIn(at, bad).value))
    else if at in env.local then WalkFrom(env, bad, chain + [at], untilHeight, calls)
    else match GetBlocks(env, calls, at, Window(gap))
      case None => Stuck(BlocksUnavailable)
      case Some(blks) =>
        if !IsChildOf(Last(chain), blks[0]) then Stuck(NotConnected)
        else
          var scan := Scan(bad, blks, untilHeight);
          var longer := chain + blks[..scan.kept];
          match scan.end
          case HitBad(x) => Stuck(ContainsBad(x))
          case BelowTarget => Reached(longer, calls + 1)
          case Exhausted =>
            SegmentDepth(blks);
            assert Last(longer) == Last(blks);
            WalkFrom(env, bad, longer, untilHeight, calls + 1)
  }

  /** Why the announced tipset is refused before any walk, if it is. */
  function Refusal(incoming: TipSet, bad: Reasons): Option<CollectError> {
    var x := FirstBadIn(Parents(incoming), bad);
    if x.Some? then Some(LinkedToBad(x.value))
    else if !BeaconSorted(incoming[0].beacon) then Some(BeaconOrder)
    else if !BeaconsAgree(incoming) then Some(BeaconMismatch)
    else None
  }

  /** Steps 1 and 2 of collectHeaders: reject a tipset whose parents are known to be bad or whose beacon
      entries are out of order or differ between its blocks. */
  method CheckIncoming(bad: BadBlockCache, incoming: TipSet) returns (r: Option<CollectError>)
    requires bad.Valid()
    modifies bad
    ensures bad.Valid() && old(bad.ops) <= bad.ops
    ensures r == Refusal(incoming, old(bad.badBlocks))
    ensures r.None? <==> Acceptable(incoming, old(bad.badBlocks))
    ensures r.None? ==> bad.badBlocks == old(bad.badBlocks) && bad.ops == old(bad.ops)
    ensures r.Some? ==>
              && MarksFor(old(bad.badBlocks), bad.badBlocks, incoming, r.value)
              && Marks(bad.ops) == old(Marks(bad.ops)) + MarksOf(old(bad.badBlocks), incoming, r.value, [])
  {
    var parentBad := FindBad(bad, Parents(incoming));
    if parentBad.Some? {
      assert forall c | c in incoming :: c in [incoming][0] && InChain(c, [incoming]);
      Reject(bad, incoming, [incoming], incoming, parentBad.value, LinkedTo(parentBad.value));
      return Some(LinkedToBad(parentBad.value));
    }
    if !BeaconSorted(incoming[0].beacon) {
      bad.Add(incoming[0], NewBadBlockReason(incoming, WrongBeaconOrder));
      return Some(BeaconOrder);
    }
    if !BeaconsAgree(incoming) {
      return Some(BeaconMismatch);
    }
    return None;
  }

  datatype Turn = Failed(error: CollectError) | Met | GoOn

  /** What a turn of the walk that asks the network comes to: the chain so far and how to go on. */
  ghost function Fetched(env: Env, bad: Reasons, chain: seq<TipSet>, untilHeight: int, calls: nat): (seq<TipSet>, Turn)
    requires |chain| > 0 && Height(Last(chain)) > untilHeight
  {
    match GetBlocks(env, calls, Parents(Last(chain)), Window(Height(Last(chain)) - untilHeight))
    case None => (chain, Failed(BlocksUnavailable))
    case Some(blks) =>
      if !IsChildOf(Last(chain), blks[0]) then (chain, Failed(NotConnected))
      else
        var scan := Scan(bad, blks, untilHeight);
        (chain + blks[..scan.kept],
         match scan.end case HitBad(x) => Failed(ContainsBad(x)) case BelowTarget => Met case Exhausted => GoOn)
  }

  /** The walk goes where the turn leads, and strictly further back if it goes on. */
  lemma FetchedLeads(env: Env, bad: Reasons, chain: seq<TipSet>, untilHeight: int, calls: nat)
    requires |chain| > 0 && Height(Last(chain)) > untilHeight && Parents(Last(chain)) !in env.local
    requires FirstBadIn(Parents(Last(chain)), bad).None?
    ensures var (longer, turn) := Fetched(env, bad, chain, untilHeight, calls);
            && |longer| > 0
            && WalkFrom(env, bad, chain, untilHeight, calls)
               == (match turn
                   case Failed(e) => Stuck(e)
                   case Met => Reached(longer, calls + 1)
                   case GoOn => WalkFrom(env, bad, longer, untilHeight, calls + 1))
            && (turn.GoOn? ==> Depth(Parents(Last(longer))) < Depth(Parents(Last(chain))))
  {
    var fetched := GetBlocks(env, calls, Parents(Last(chain)), Window(Height(Last(chain)) - untilHeight));
    if fetched.Some? && Scan(bad, fetched.value, untilHeight).end.Exhausted? {
      SegmentDepth(fetched.value);
      assert Last(chain + fetched.value[..|fetched.value|]) == Last(fetched.value);
    }
  }

  /** One turn of the walk that has to ask the network. */
  method FetchTurn(env: Env, bad: BadBlockCache, incoming: TipSet, chain: seq<TipSet>, accepted: seq<Cid>,
                   untilHeight: int, calls: nat)
    returns (longer: seq<TipSet>, turn: Turn)
    requires bad.Valid() && Walked(incoming, chain, accepted, bad.badBlocks) && Height(Last(chain)) > untilHeight
    modifies bad
    ensures bad.Valid() && old(bad.ops) <= bad.ops
    ensures (longer, turn) == Fetched(env, old(bad.badBlocks), chain, untilHeight, calls)
    ensures turn.Failed? ==>
              && MarksFor(old(bad.badBlocks), bad.badBlocks, incoming, turn.error) && !turn.error.ForkFailed?
              && Marks(bad.ops) == old(Marks(bad.ops)) + MarksOf(old(bad.badBlocks), incoming, turn.error, accepted)
    ensures !turn.Failed? ==>
              && bad.badBlocks == old(bad.badBlocks) && bad.ops == old(bad.ops)
              && Walked(incoming, longer, accepted, bad.badBlocks)
    ensures turn.GoOn? ==> Walked(incoming, longer, accepted + Parents(Last(chain)), bad.badBlocks)
  {
    var at := Parents(Last(chain));
    var fetched := GetBlocks(env, calls, at, Window(Height(Last(chain)) - untilHeight));
    if fetched.None? {
      return chain, Failed(BlocksUnavailable);
    }
    var blks := fetched.value;
    if !IsChildOf(Last(chain), blks[0]) {
      return chain, Failed(NotConnected);
    }
    var end;
    longer, end := AppendSegment(bad, incoming, chain, accepted, blks, untilHeight);
    match end
    case HitBad(x) =>
      turn := Failed(ContainsBad(x));
    case BelowTarget =>
      turn := Met;
    case Exhausted =>
      assert longer == chain + blks;
      AcceptFirst(incoming, chain, accepted, bad.badBlocks, blks);
      turn := GoOn;
  }

  lemma AcceptFirst(incoming: TipSet, chain: seq<TipSet>, accepted: seq<Cid>, bad: Reasons, blks: seq<TipSet>)
    requires |blks| > 0 && Walked(incoming, chain + blks, accepted, bad)
    ensures Walked(incoming, chain + blks, accepted + blks[0], bad)
  {
    InChainExtends(chain, blks);
    assert blks[0] in blks;
  }

  /** The blocks accepted on the way from the end of `chain` to where the walk ends: those of every tipset a turn
      started from, loaded or fetched, once that turn has gone well. */
  ghost function Accepting(env: Env, bad: Reasons, chain: seq<TipSet>, untilHeight: int, calls: nat): seq<Cid>
    requires |chain| > 0
    decreases Depth(Parents(Last(chain)))
  {
    var at := Parents(Last(chain));
    if Height(Last(chain)) <= untilHeight || FirstBadIn(at, bad).Some? then []
    else if at in env.local then at + Accepting(env, bad, chain + [at], untilHeight, calls)
    else
      FetchedLeads(env, bad, chain, untilHeight, calls);
      var (longer, turn) := Fetched(env, bad, chain, untilHeight, calls);
      if turn.GoOn? then at + Accepting(env, bad, longer, untilHeight, calls + 1) else []
  }

  lemma AcceptsIfGoesOn(env: Env, bad: Reasons, chain: seq<TipSet>, untilHeight: int, calls: nat)
    requires |chain| > 0 && Height(Last(chain)) > untilHeight && Parents(Last(chain)) !in env.local
    requires FirstBadIn(Parents(Last(chain)), bad).None?
    ensures var (longer, turn) := Fetched(env, bad, chain, untilHeight, calls);
            && |longer| > 0
            && Accepting(env, bad, chain, untilHeight, calls)
               == if turn.GoOn? then Parents(Last(chain)) + Accepting(env, bad, longer, untilHeight, calls + 1) else []
  {
    FetchedLeads(env, bad, chain, untilHeight, calls);
  }

  /** The walk w, which accepts the blocks `all`, has come to the end of `chain`, having accepted these blocks. */
  ghost predicate OnCourse(env: Env, bad: Reasons, untilHeight: int, w: Walk, all: seq<Cid>, chain: seq<TipSet>,
                           accepted: seq<Cid>, calls: nat) {
    && |chain| > 0 && w == WalkFrom(env, bad, chain, untilHeight, calls)
    && all == accepted + Accepting(env, bad, chain, untilHeight, calls)
  }

  lemma CourseMeetsBad(env: Env, bad: Reasons, untilHeight: int, w: Walk, all: seq<Cid>, chain: seq<TipSet>,
                       accepted: seq<Cid>, calls: nat)
    requires OnCourse(env, bad, untilHeight, w, all, chain, accepted, calls) && Height(Last(chain)) > untilHeight
    requires FirstBadIn(Parents(Last(chain)), bad).Some?
    ensures w == Stuck(ContainsBad(FirstBadIn(Parents(Last(chain)), bad).value)) && all == accepted
  {
  }

  lemma CourseLoads(env: Env, bad: Reasons, untilHeight: int, w: Walk, all: seq<Cid>, chain: seq<TipSet>,
                    accepted: seq<Cid>, calls: nat)
    requires OnCourse(env, bad, untilHeight, w, all, chain, accepted, calls) && Height(Last(chain)) > untilHeight
    requires FirstBadIn(Parents(Last(chain)), bad).None? && Parents(Last(chain)) in env.local
    ensures var at := Parents(Last(chain));
            OnCourse(env, bad, untilHeight, w, all, chain + [at], accepted + at, calls)
  {
  }

  lemma CourseFetches(env: Env, bad: Reasons, untilHeight: int, w: Walk, all: seq<Cid>, chain: seq<TipSet>,
                      accepted: seq<Cid>, calls: nat)
    requires OnCourse(env, bad, untilHeight, w, all, chain, accepted, calls) && Height(Last(chain)) > untilHeight
    requires FirstBadIn(Parents(Last(chain)), bad).None? && Parents(Last(chain)) !in env.local
    ensures var (longer, turn) := Fetched(env, bad, chain, untilHeight, calls);
            match turn
            case Failed(e) => w == Stuck(e) && all == accepted
            case Met => w == Reached(longer, calls + 1)
            case GoOn =>
              && OnCourse(env, bad, untilHeight, w, all, longer, accepted + Parents(Last(chain)), calls + 1)
              && Depth(Parents(Last(longer))) < Depth(Parents(Last(chain)))
  {
    FetchedLeads(env, bad, chain, untilHeight, calls);
    AcceptsIfGoesOn(env, bad, chain, untilHeight, calls);
  }

  /** Step 3: walk back from `incoming` to the target height, from the local store where possible and from
      the network otherwise.  `calls` counts the requests made. */
  method WalkBack(env: Env, bad: BadBlockCache, incoming: TipSet, untilHeight: int)
    returns (r: Result<seq<TipSet>, CollectError>, calls: nat)
    requires bad.Valid()
    modifies bad
    ensures bad.Valid() && old(bad.ops) <= bad.ops
    ensures var w := WalkFrom(env, old(bad.badBlocks), [incoming], untilHeight, 0);
            if r.Ok? then w == Reached(r.value, calls) else w == Stuck(r.error)
    ensures r.Ok? ==> bad.badBlocks == old(bad.badBlocks) && Walked(incoming, r.value, [], bad.badBlocks)
    ensures r.Ok? ==> bad.ops == old(bad.ops)
    ensures r.Err? ==> MarksFor(old(bad.badBlocks), bad.badBlocks, incoming, r.error) && !r.error.ForkFailed?
    ensures r.Err? ==>
              var accepted := Accepting(env, old(bad.badBlocks), [incoming], untilHeight, 0);
              && Marks(bad.ops) == old(Marks(bad.ops)) + MarksOf(old(bad.badBlocks), incoming, r.error, accepted)
              && NewlyDue(old(Marks(bad.ops)), Marks(bad.ops), old(bad.badBlocks), incoming, r.error, accepted)
  {
    var blockSet: seq<TipSet> := [incoming];
    var at := Parents(incoming);
    var acceptedBlocks: seq<Cid> := [];
    var joined := false;
    ghost var known := bad.badBlocks;
    ghost var w := WalkFrom(env, known, [incoming], untilHeight, 0);
    ghost var all := Accepting(env, known, [incoming], untilHeight, 0);
    calls := 0;
    while !joined && Height(Last(blockSet)) > untilHeight
      invariant bad.badBlocks == known && bad.Valid() && bad.ops == old(bad.ops)
      invariant Walked(incoming, blockSet, acceptedBlocks, known)
      invariant !joined ==> at == Parents(Last(blockSet))
      invariant if joined then w == Reached(blockSet, calls)
                else OnCourse(env, known, untilHeight, w, all, blockSet, acceptedBlocks, calls)
      decreases !joined, Depth(at)
    {
      var atBad := CheckNext(bad, incoming, blockSet, acceptedBlocks);
      if atBad.Some? {
        CourseMeetsBad(env, known, untilHeight, w, all, blockSet, acceptedBlocks, calls);
        DueNow(old(Marks(bad.ops)), Marks(bad.ops), known, incoming, ContainsBad(atBad.value), all);
        return Err(ContainsBad(atBad.value)), calls;
      }
      if at in env.local {
        CourseLoads(env, known, untilHeight, w, all, blockSet, acceptedBlocks, calls);
        WalkOn(incoming, blockSet, acceptedBlocks, known, at);
        acceptedBlocks := acceptedBlocks + at;
        blockSet := blockSet + [at];
        at := Parents(at);
        continue;
      }
      CourseFetches(env, known, untilHeight, w, all, blockSet, acceptedBlocks, calls);
      var turn;
      blockSet, turn := FetchTurn(env, bad, incoming, blockSet, acceptedBlocks, untilHeight, calls);
      calls := calls + 1;
      match turn
      case Failed(e) =>
        DueNow(old(Marks(bad.ops)), Marks(bad.ops), known, incoming, e, all);
        return Err(e), calls;
      case Met =>
        joined := true;
      case GoOn =>
        acceptedBlocks := acceptedBlocks + at;
        at := Parents(Last(blockSet));
    }
    return Ok(blockSet), calls;
  }

  /** Step 4: connect the chain walked, and mark the announced tipset if its fork may not be followed. */
  method ConnectOrMark(env: Env, calls: nat, bad: BadBlockCache, incoming: TipSet, chain: seq<TipSet>, known: TipSet,
                       ignoreCheckpoint: bool)
    returns (r: Result<seq<TipSet>, CollectError>)
    requires bad.Valid() && |chain| > 0 && chain[0] != known && Linked(chain)
    requires Descending(known) && env.forkLengthThreshold >= 1
    modifies bad
    ensures bad.Valid() && old(bad.ops) <= bad.ops
    ensures r.Ok? <==> CanConnect(env, calls, Last(Trim(chain, known)), known, ignoreCheckpoint)
    ensures r.Ok? ==>
              && r.value == Trim(chain, known) + Fragment(env, calls, Last(Trim(chain, known)), known, ignoreCheckpoint)
              && Linked(r.value) && Last(r.value) != known && Meets(env, known, ignoreCheckpoint, Last(r.value))
              && bad.badBlocks == old(bad.badBlocks) && bad.ops == old(bad.ops)
    ensures r.Err? ==>
              && r.error == ConnectError(env, calls, Last(Trim(chain, known)), known, ignoreCheckpoint)
              && MarksFor(old(bad.badBlocks), bad.badBlocks, incoming, r.error)
              && Marks(bad.ops) == old(Marks(bad.ops)) + MarksOf(old(bad.badBlocks), incoming, r.error, [])
  {
    r := ConnectToKnown(env, calls, chain, known, ignoreCheckpoint);
    if r == Err(ForkFailed(ForkTooLong)) || r == Err(ForkFailed(ForkCheckpoint)) {
      bad.AddAll(incoming, NewBadBlockReason(incoming, ForkPastFinality));
    }
  }

  /** What collectHeaders comes to: nothing, or the chain walked with the fragment that joins it to ours. */
  ghost function Collected(env: Env, bad: Reasons, incoming: TipSet, known: TipSet, ignoreCheckpoint: bool)
    : Option<seq<TipSet>>
    requires incoming != known
  {
    if !Acceptable(incoming, bad) then None
    else match WalkFrom(env, bad, [incoming], Height(known) + 1, 0)
      case Stuck(_) => None
      case Reached(chain, calls) =>
        var base := Trim(chain, known);
        if CanConnect(env, calls, Last(base), known, ignoreCheckpoint)
        then Some(base + Fragment(env, calls, Last(base), known, ignoreCheckpoint)) else None
  }

  /** The error of the first step that fails, if one does: the checks on the announced tipset, the walk, then the
      connection. */
  ghost function ErrorOf(env: Env, bad: Reasons, incoming: TipSet, known: TipSet, ignoreCheckpoint: bool): CollectError
    requires incoming != known
  {
    match Refusal(incoming, bad)
    case Some(why) => why
    case None =>
      match WalkFrom(env, bad, [incoming], Height(known) + 1, 0)
      case Stuck(why) => why
      case Reached(chain, calls) => ConnectError(env, calls, Last(Trim(chain, known)), known, ignoreCheckpoint)
  }

  /** What collecting comes to once the walk has come to the end of `chain`. */
  lemma OutcomeOfWalk(env: Env, bad: Reasons, incoming: TipSet, known: TipSet, ignoreCheckpoint: bool,
                      chain: seq<TipSet>, calls: nat)
    requires incoming != known && Acceptable(incoming, bad) && |chain| > 0 && chain[0] == incoming
    requires WalkFrom(env, bad, [incoming], Height(known) + 1, 0) == Reached(chain, calls)
    ensures var base := Trim(chain, known);
            && Collected(env, bad, incoming, known, ignoreCheckpoint)
               == (if CanConnect(env, calls, Last(base), known, ignoreCheckpoint)
                   then Some(base + Fragment(env, calls, Last(base), known, ignoreCheckpoint)) else None)
            && ErrorOf(env, bad, incoming, known, ignoreCheckpoint)
               == ConnectError(env, calls, Last(base), known, ignoreCheckpoint)
  {
  }

  lemma OutcomeOfFailure(env: Env, bad: Reasons, incoming: TipSet, known: TipSet, ignoreCheckpoint: bool,
                         e: CollectError)
    requires incoming != known
    requires Refusal(incoming, bad) == Some(e)
             || (Acceptable(incoming, bad) && WalkFrom(env, bad, [incoming], Height(known) + 1, 0) == Stuck(e))
    ensures Collected(env, bad, incoming, known, ignoreCheckpoint).None?
    ensures ErrorOf(env, bad, incoming, known, ignoreCheckpoint) == e
  {
  }

  /** collectHeaders.  It succeeds exactly when the walk over the peers' answers reaches our chain or a fork can be
      resolved; a success is the chain from `incoming` back to where it meets ours and leaves the cache alone. */
  method CollectHeaders(env: Env, bad: BadBlockCache, incoming: TipSet, known: TipSet, ignoreCheckpoint: bool)
    returns (r: Result<seq<TipSet>, CollectError>)
    requires incoming != known && Descending(known) && env.forkLengthThreshold >= 1 && bad.Valid()
    modifies bad
    ensures bad.Valid() && bad.AllTraced() && old(bad.ops) <= bad.ops
    ensures var c := Collected(env, old(bad.badBlocks), incoming, known, ignoreCheckpoint);
            if r.Ok? then c == Some(r.value) else c.None?
    ensures r.Ok? ==>
              && |r.value| > 0 && r.value[0] == incoming
              && Linked(r.value)
              && Last(r.value) != known
              && Meets(env, known, ignoreCheckpoint, Last(r.value))
    ensures r.Ok? ==> bad.badBlocks == old(bad.badBlocks) && bad.ops == old(bad.ops)
    ensures r.Err? ==> MarksFor(old(bad.badBlocks), bad.badBlocks, incoming, r.error)
    ensures r.Err? ==>
              && r.error == ErrorOf(env, old(bad.badBlocks), incoming, known, ignoreCheckpoint)
              && Marks(bad.ops) == old(Marks(bad.ops))
                                   + MarksOf(old(bad.badBlocks), incoming, r.error,
                                             Accepting(env, old(bad.badBlocks), [incoming], Height(known) + 1, 0))
              && NewlyDue(old(Marks(bad.ops)), Marks(bad.ops), old(bad.badBlocks), incoming, r.error,
                          Accepting(env, old(bad.badBlocks), [incoming], Height(known) + 1, 0))
  {
    var refused := CheckIncoming(bad, incoming);
    if refused.Some? {
      OutcomeOfFailure(env, old(bad.badBlocks), incoming, known, ignoreCheckpoint, refused.value);
      DueNow(old(Marks(bad.ops)), Marks(bad.ops), old(bad.badBlocks), incoming, refused.value,
             Accepting(env, old(bad.badBlocks), [incoming], Height(known) + 1, 0));
      bad.TracesBack();
      return Err(refused.value);
    }
    var walk, calls := WalkBack(env, bad, incoming, Height(known) + 1);
    if walk.Err? {
      OutcomeOfFailure(env, old(bad.badBlocks), incoming, known, ignoreCheckpoint, walk.error);
      bad.TracesBack();
      return walk;
    }
    OutcomeOfWalk(env, bad.badBlocks, incoming, known, ignoreCheckpoint, walk.value, calls);
    r := ConnectOrMark(env, calls, bad, incoming, walk.value, known, ignoreCheckpoint);
    if r.Err? {
      DueNow(old(Marks(bad.ops)), Marks(bad.ops), old(bad.badBlocks), incoming, r.error,
             Accepting(env, old(bad.badBlocks), [incoming], Height(known) + 1, 0));
    }
    bad.TracesBack();
  }

  /** Our chain does not lead back to the fork from `base`: it starts at a checkpointed head, runs out or would leave
      the checkpoint behind. */
  ghost predicate Denied(env: Env, call: nat, base: TipSet, known: TipSet, ignoreCheckpoint: bool) {
    && Parents(known) in env.local
    && match GetBlocks(env, call, Parents(base), env.forkLengthThreshold)
       case None => CheckpointedHead(env, known, ignoreCheckpoint)
       case Some(tips) =>
         exists m :: RunsOut(env, known, ignoreCheckpoint, tips, m)
                     || LeavesCheckpoint(env, known, ignoreCheckpoint, tips, m)
  }

  /** The error of a failed collection is one the announced tipset is marked for, as a fork past finality, if and only
      if the tipset is acceptable, the walk gets to our height and our chain does not lead back to the fork. */
  lemma MarkedForForkExactly(env: Env, bad: Reasons, incoming: TipSet, known: TipSet, ignoreCheckpoint: bool)
    requires incoming != known && Descending(known) && env.forkLengthThreshold >= 1
    ensures var e := ErrorOf(env, bad, incoming, known, ignoreCheckpoint);
            var w := WalkFrom(env, bad, [incoming], Height(known) + 1, 0);
            e == ForkFailed(ForkTooLong) || e == ForkFailed(ForkCheckpoint)
            <==> Acceptable(incoming, bad) && w.Reached?
                 && Denied(env, w.calls, Last(Trim(w.chain, known)), known, ignoreCheckpoint)
  {
    WalkFailsOnItsOwn(env, bad, [incoming], Height(known) + 1, 0);
    var w := WalkFrom(env, bad, [incoming], Height(known) + 1, 0);
    if w.Reached? {
      var tips := GetBlocks(env, w.calls, Parents(Last(Trim(w.chain, known))), env.forkLengthThreshold);
      if tips.Some? {
        DeniedExactly(env, known, ignoreCheckpoint, tips.value);
      }
    }
  }

  lemma {:induction false} WalkFailsOnItsOwn(env: Env, bad: Reasons, chain: seq<TipSet>, untilHeight: int, calls: nat)
    requires |chain| > 0
    ensures var w := WalkFrom(env, bad, chain, untilHeight, calls); w.Stuck? ==> !w.error.ForkFailed?
    decreases Depth(Parents(Last(chain)))
  {
    var at := Parents(Last(chain));
    if Height(Last(chain)) > untilHeight && FirstBadIn(at, bad).None? {
      if at in env.local {
        WalkFailsOnItsOwn(env, bad, chain + [at], untilHeight, calls);
      } else {
        FetchedLeads(env, bad, chain, untilHeight, calls);
        var (longer, turn) := Fetched(env, bad, chain, untilHeight, calls);
        if turn.GoOn? {
          WalkFailsOnItsOwn(env, bad, longer, untilHeight, calls + 1);
        }
      }
    }
  }

  ghost predicate AllClean(chain: seq<TipSet>, bad: Reasons) {
    forall i, c | 0 <= i < |chain| && c in chain[i] :: c !in bad
  }

  /** Whatever the walk appends to a clean chain is clean. */
  lemma {:induction false} WalkIsClean(env: Env, bad: Reasons, chain: seq<TipSet>, untilHeight: int, calls: nat)
    requires |chain| > 0 && CleanUpTo(chain, |chain|, bad)
    requires WalkFrom(env, bad, chain, untilHeight, calls).Reached?
    ensures var w := WalkFrom(env, bad, chain, untilHeight, calls).chain; CleanUpTo(w, |w|, bad)
    decreases Depth(Parents(Last(chain)))
  {
    var at, gap := Parents(Last(chain)), Height(Last(chain)) - untilHeight;
    if gap > 0 {
      if at in env.local {
        WalkIsClean(env, bad, chain + [at], untilHeight, calls);
      } else {
        var blks := GetBlocks(env, calls, at, Window(gap)).value;
        var scan := Scan(bad, blks, untilHeight);
        if scan.end.Exhausted? {
          SegmentDepth(blks);
          var longer := chain + blks[..scan.kept];
          assert Last(longer) == Last(blks);
          WalkIsClean(env, bad, longer, untilHeight, calls + 1);
        }
      }
    }
  }

  /** Exactly when all of a collected chain is free of known bad blocks: the announced tipset has none, which is not
      looked at here, and the fragment fetched to resolve a fork, if one is needed, has none. */
  lemma CleanIffFragmentClean(env: Env, bad: Reasons, incoming: TipSet, known: TipSet, ignoreCheckpoint: bool)
    requires incoming != known && Collected(env, bad, incoming, known, ignoreCheckpoint).Some?
    ensures var w := WalkFrom(env, bad, [incoming], Height(known) + 1, 0);
            var fragment := Fragment(env, w.calls, Last(Trim(w.chain, known)), known, ignoreCheckpoint);
            AllClean(Collected(env, bad, incoming, known, ignoreCheckpoint).value, bad)
            <==> AllClean([incoming], bad) && AllClean(fragment, bad)
  {
    WalkIsClean(env, bad, [incoming], Height(known) + 1, 0);
    var w := WalkFrom(env, bad, [incoming], Height(known) + 1, 0);
    var base := Trim(w.chain, known);
    var fragment := Fragment(env, w.calls, Last(base), known, ignoreCheckpoint);
    JoinedClean(base, fragment, bad);
    assert base == [incoming] + base[1..];
    JoinedClean([incoming], base[1..], bad);
    assert AllClean(base[1..], bad);
  }

  lemma JoinedClean(a: seq<TipSet>, b: seq<TipSet>, bad: Reasons)
    ensures AllClean(a + b, bad) <==> AllClean(a, bad) && AllClean(b, bad)
  {
    var ab := a + b;
    if AllClean(ab, bad) {
      assert forall i | 0 <= i < |a| :: a[i] == ab[i];
      assert forall i | 0 <= i < |b| :: b[i] == ab[|a| + i];
    }
  }

  /** The checks made on the announced tipset itself: no parent known to be bad, sane beacon entries. */
  ghost predicate Acceptable(incoming: TipSet, bad: Reasons) {
    && (forall c | c in Parents(incoming) :: c !in bad)
    && BeaconSorted(incoming[0].beacon)
    && BeaconsAgree(incoming)
  }

  lemma SegmentDepth(blks: seq<TipSet>)
    requires |blks| > 0 && Connected(blks)
    ensures Depth(Parents(Last(blks))) < Depth(blks[0])
  {
    LinkedIsBack(blks, |blks| - 1);
    BackDepth(blks[0], |blks| - 1);
  }

  /** A collected chain keeps a checkpoint of ours unless it replaces `known`, itself the checkpoint,
      by a sibling: the short cut for siblings is the one exit that does not look at the checkpoint. */
  lemma CheckpointKept(env: Env, headers: seq<TipSet>, known: TipSet)
    requires |headers| > 0 && Linked(headers) && Meets(env, known, false, Last(headers))
    requires Last(headers) != known
    requires env.checkpoint.Some? && OnChainOf(env.checkpoint.value, known)
    ensures OnChainOf(env.checkpoint.value, headers[0])
            <==> !(known == env.checkpoint.value && Parents(Last(headers)) == Parents(known))
  {
    var chk, last := env.checkpoint.value, Last(headers);
    LinkedIsBack(headers, |headers| - 1);
    assert OnChainOf(last, headers[0]);
    if Parents(last) == Parents(known) && Parents(last) != known {
      if known == chk {
        SiblingNotOnChain(headers[0], |headers| - 1, last, known);
      } else {
        var n: nat :| Back(known, n) == chk;
        assert Back(last, n) == chk;
        OnChainTrans(chk, last, headers[0]);
      }
    } else {
      if Parents(last) == known {
        assert Back(last, 1) == known;
        assert OnChainOf(known, last);
        OnChainTrans(chk, known, last);
      } else {
        var i :| JoinsAt(env, known, false, last, i);
        JoinKeepsCheckpoint(env, known, last, i);
      }
      OnChainTrans(chk, last, headers[0]);
    }
  }

  lemma SiblingNotOnChain(top: TipSet, m: nat, last: TipSet, known: TipSet)
    requires Back(top, m) == last && last != known && Parents(last) == Parents(known)
    ensures !OnChainOf(known, top)
  {
    if OnChainOf(known, top) {
      var n: nat :| Back(top, n) == known;
      BackDepth(top, m);
      BackDepth(top, n);
    }
  }

  // -- the same over the specification

  lemma {:induction false} WalkIsLinked(env: Env, bad: Reasons, chain: seq<TipSet>, untilHeight: int, calls: nat)
    requires |chain| > 0 && Linked(chain) && WalkFrom(env, bad, chain, untilHeight, calls).Reached?
    ensures Linked(WalkFrom(env, bad, chain, untilHeight, calls).chain)
    decreases Depth(Parents(Last(chain)))
  {
    var at, gap := Parents(Last(chain)), Height(Last(chain)) - untilHeight;
    if gap > 0 {
      if at in env.local {
        WalkIsLinked(env, bad, chain + [at], untilHeight, calls);
      } else {
        var blks := GetBlocks(env, calls, at, Window(gap)).value;
        var kept := Scan(bad, blks, untilHeight).kept;
        SegmentLinks(chain, blks, kept);
        if kept == |blks| {
          SegmentDepth(blks);
          assert Last(chain + blks[..kept]) == Last(blks);
          WalkIsLinked(env, bad, chain + blks[..kept], untilHeight, calls + 1);
        }
      }
    }
  }

  lemma SegmentLinks(chain: seq<TipSet>, blks: seq<TipSet>, kept: nat)
    requires |chain| > 0 && Linked(chain) && |blks| > 0 && Connected(blks) && Parents(Last(chain)) == blks[0]
    requires kept <= |blks|
    ensures Linked(chain + blks[..kept])
  {
    if kept == 0 {
      assert chain + blks[..0] == chain;
    } else {
      assert forall i | 0 <= i < kept - 1 :: IsChildOf(blks[i], blks[i + 1]);
      LinkedOn(chain, blks[..kept]);
    }
  }

  lemma TrimmedEnd(chain: seq<TipSet>, known: TipSet)
    requires |chain| > 0 && chain[0] != known && Linked(chain)
    ensures Linked(Trim(chain, known)) && Last(Trim(chain, known)) != known
  {
    if Last(chain) == known {
      var base := Trim(chain, known);
      assert Parents(chain[|chain| - 2]) == known && Last(base) == chain[|chain| - 2];
      assert Back(Last(base), 1) == known;
      BackDepth(Last(base), 1);
    }
  }

  lemma JoinsFurtherOn(env: Env, known: TipSet, ignoreCheckpoint: bool, tips: seq<TipSet>)
    requires |tips| > 0 && Joins(env, known, ignoreCheckpoint, tips)
    requires !exists i :: JoinsAt(env, known, ignoreCheckpoint, tips[0], i)
    ensures Joins(env, known, ignoreCheckpoint, tips[1..])
  {
    var i, tip :| tip in tips && JoinsAt(env, known, ignoreCheckpoint, tip, i);
    assert tip in tips[1..];
  }

  lemma {:induction false} UpToJoinEnds(env: Env, known: TipSet, ignoreCheckpoint: bool, tips: seq<TipSet>)
    requires Joins(env, known, ignoreCheckpoint, tips)
    ensures var u := UpToJoin(env, known, ignoreCheckpoint, tips);
            && 0 < |u| <= |tips| && u == tips[..|u|]
            && exists i :: JoinsAt(env, known, ignoreCheckpoint, Last(u), i)
  {
    if exists i :: JoinsAt(env, known, ignoreCheckpoint, tips[0], i) {
      assert UpToJoin(env, known, ignoreCheckpoint, tips) == [tips[0]] == tips[..1];
      assert Last([tips[0]]) == tips[0];
    } else {
      JoinsFurtherOn(env, known, ignoreCheckpoint, tips);
      UpToJoinEnds(env, known, ignoreCheckpoint, tips[1..]);
      var u := UpToJoin(env, known, ignoreCheckpoint, tips[1..]);
      assert [tips[0]] + u == tips[..|u| + 1];
      assert Last([tips[0]] + u) == Last(u);
    }
  }

  /** What is collected is linked and ends where it meets our chain. */
  lemma CollectedMeets(env: Env, bad: Reasons, incoming: TipSet, known: TipSet, ignoreCheckpoint: bool)
    requires incoming != known && Collected(env, bad, incoming, known, ignoreCheckpoint).Some?
    ensures var v := Collected(env, bad, incoming, known, ignoreCheckpoint).value;
            && |v| > 0 && v[0] == incoming && Linked(v)
            && Last(v) != known && Meets(env, known, ignoreCheckpoint, Last(v))
  {
    WalkIsLinked(env, bad, [incoming], Height(known) + 1, 0);
    var w := WalkFrom(env, bad, [incoming], Height(known) + 1, 0);
    TrimmedEnd(w.chain, known);
    FragmentMeets(env, w.calls, Trim(w.chain, known), known, ignoreCheckpoint);
  }

  lemma FragmentMeets(env: Env, calls: nat, base: seq<TipSet>, known: TipSet, ignoreCheckpoint: bool)
    requires |base| > 0 && Linked(base) && Last(base) != known
    requires CanConnect(env, calls, Last(base), known, ignoreCheckpoint)
    ensures var v := base + Fragment(env, calls, Last(base), known, ignoreCheckpoint);
            v[0] == base[0] && Linked(v) && Last(v) != known && Meets(env, known, ignoreCheckpoint, Last(v))
  {
    if NeedsFork(Last(base), known) {
      var tips := GetBlocks(env, calls, Parents(Last(base)), env.forkLengthThreshold).value;
      UpToJoinEnds(env, known, ignoreCheckpoint, tips);
      var u := UpToJoin(env, known, ignoreCheckpoint, tips);
      assert forall i | 0 <= i < |u| - 1 :: IsChildOf(tips[i], tips[i + 1]);
      LinkedOn(base, u);
      JoinMeets(env, known, ignoreCheckpoint, Last(u));
    } else {
      assert base + [] == base;
    }
  }

  /** With our head itself the checkpoint no fork is resolved: what is collected is the chain walked. */
  lemma CheckpointedHeadNeedsNoFork(env: Env, bad: Reasons, incoming: TipSet, known: TipSet)
    requires incoming != known && env.checkpoint == Some(known) && Collected(env, bad, incoming, known, false).Some?
    ensures var base := Trim(WalkFrom(env, bad, [incoming], Height(known) + 1, 0).chain, known);
            Collected(env, bad, incoming, known, false) == Some(base) && !NeedsFork(Last(base), known)
  {
    forall tip: TipSet, i
      ensures !JoinsAt(env, known, false, tip, i)
    {
      if i >= 1 {
        assert Back(known, 0) == known;
        assert PassesCheckpoint(env, known, false, i);
      }
    }
    var base := Trim(WalkFrom(env, bad, [incoming], Height(known) + 1, 0).chain, known);
    assert base + [] == base;
  }

  lemma NotOwnParent(ts: TipSet)
    ensures Parents(ts) != ts
  {
    assert Depth(ts) == 1 + Depth(Parents(ts));
  }

  /** Collecting loses a checkpoint of ours exactly when our head is the checkpoint and the walk ends at a child of the
      head's parent that is no child of the head: the guard of the exit that does not look at the checkpoint. */
  lemma CollectedKeepsCheckpoint(env: Env, bad: Reasons, incoming: TipSet, known: TipSet)
    requires incoming != known && Collected(env, bad, incoming, known, false).Some?
    requires env.checkpoint.Some? && OnChainOf(env.checkpoint.value, known)
    ensures var base := Last(Trim(WalkFrom(env, bad, [incoming], Height(known) + 1, 0).chain, known));
            OnChainOf(env.checkpoint.value, incoming)
            <==> !(known == env.checkpoint.value && IsChildOf(base, Parents(known)) && !IsChildOf(base, known))
  {
    CollectedMeets(env, bad, incoming, known, false);
    CheckpointKept(env, Collected(env, bad, incoming, known, false).value, known);
    if known == env.checkpoint.value {
      CheckpointedHeadNeedsNoFork(env, bad, incoming, known);
      NotOwnParent(known);
    }
  }
}
