/** Fetching chain segments from the network and joining a fork to our chain. */
module Forks {
  import opened Outcomes
  import opened Tipsets

  /** Everything the syncer consults but does not own.
      `reply(n, k, c)` is whatever the peers answer to the n-th request of a
      run, asking for at most c tipsets starting at key k.
   */
  datatype Env = Env(local: set<TipSet>,
                     reply: (nat, Key, nat) -> Option<seq<Key>>,
                     checkpoint: Option<TipSet>,
                     genesis: TipSet,
                     forkLengthThreshold: nat)

  /** A connected chain of at most `count` tipsets that starts at the requested key. */
  predicate GoodReply(key: Key, count: nat, answer: seq<Key>) {
    && 1 <= |answer| <= count && answer[0] == key
    && (forall k | k in answer ::
          |k| > 0 && forall b, c | b in k && c in k :: b.height == c.height && b.parents == c.parents)
    && (forall i | 0 <= i < |answer| - 1 ::
          answer[i][0].parents == answer[i + 1] && answer[i][0].height > answer[i + 1][0].height)
  }

  /** The exchange client: an answer is used if and only if it is a good reply to an allowed request. */
  function GetBlocks(env: Env, call: nat, key: Key, count: nat): (r: Option<seq<TipSet>>)
    ensures r.Some? ==>
              && 1 <= |r.value| <= count
              && r.value[0] == key
              && Connected(r.value)
  {
    if count == 0 || count > env.forkLengthThreshold then None
    else match env.reply(call, key, count)
      case None => None
      case Some(answer) =>
        if 1 <= |answer| <= count && (forall k | k in answer :: FormsTipSet(k)) then
          var tips: seq<TipSet> := answer;
          if tips[0] == key && Connected(tips) then Some(tips) else None
        else None
  }

  lemma UsedIffGood(env: Env, call: nat, key: Key, count: nat)
    ensures var r, reply := GetBlocks(env, call, key, count), env.reply(call, key, count);
            && (r.Some? <==> 1 <= count <= env.forkLengthThreshold && reply.Some? && GoodReply(key, count, reply.value))
            && (r.Some? ==> Some(r.value) == reply)
  {
  }

  datatype ForkError =
    | FetchFailed
    | LoadFailed
    | WrongGenesis
    | ForkedAtGenesis
    | ForkTooLong
    | ForkCheckpoint

  /** Whether walking back from `known` to its i-th ancestor leaves the checkpoint behind. */
  ghost predicate PassesCheckpoint(env: Env, known: TipSet, ignoreCheckpoint: bool, i: nat) {
    !ignoreCheckpoint && env.checkpoint.Some? &&
    exists j | 0 <= j < i :: Back(known, j) == env.checkpoint.value
  }

  /** A fork may join our chain at `tip`, the i-th ancestor of `known`. */
  ghost predicate JoinsAt(env: Env, known: TipSet, ignoreCheckpoint: bool, tip: TipSet, i: nat) {
    && 1 <= i <= env.forkLengthThreshold
    && Back(known, i) == tip
    && Height(tip) != 0
    && (forall j | 1 <= j <= i :: Back(known, j) in env.local)
    && !PassesCheckpoint(env, known, ignoreCheckpoint, i)
  }

  /** A tipset that is none of the ancestors of `known` from the first to before the m-th, or none at all. */
  ghost predicate NotWithin(known: TipSet, tip: TipSet, m: nat) {
    forall n | 1 <= n < m :: Back(known, n) != tip
  }

  ghost predicate NotOurs(known: TipSet, tip: TipSet) {
    forall n | n >= 1 :: Back(known, n) != tip
  }

  /** Our chain is already below the tip, so it can no longer be met. */
  lemma BelowTip(known: TipSet, m: nat, tip: TipSet)
    requires Descending(known) && Back(known, m) != [] && Back(known, m)[0].height < Height(tip)
    requires NotWithin(known, tip, m)
    ensures NotOurs(known, tip)
  {
    forall n | n >= m
      ensures Back(known, n) != tip
    {
      if n > m && Back(known, n) == tip {
        DeeperIsLower(known, m, n);
      }
    }
  }

  /** The rest of the fetched segment is already below our m-th ancestor, so that can no longer be met. */
  lemma AboveTips(known: TipSet, tips: seq<TipSet>, cur: nat, m: nat)
    requires Connected(tips) && cur < |tips| && FormsTipSet(Back(known, m))
    requires Back(known, m) != tips[cur] && Height(tips[cur]) <= Height(Back(known, m))
    requires forall c | cur <= c < |tips| :: NotWithin(known, tips[c], m)
    ensures forall c | cur <= c < |tips| :: NotWithin(known, tips[c], m + 1)
  {
    forall c | cur < c < |tips|
      ensures tips[c] != Back(known, m)
    {
      ConnectedHeights(tips, cur, c);
    }
  }

  /** Nothing at or beyond our m-th ancestor can be where the fork joins. */
  ghost predicate Hopeless(env: Env, known: TipSet, ignoreCheckpoint: bool, m: nat) {
    forall tip: TipSet, i | i >= m :: !JoinsAt(env, known, ignoreCheckpoint, tip, i)
  }

  ghost predicate Joins(env: Env, known: TipSet, ignoreCheckpoint: bool, tips: seq<TipSet>) {
    exists i, tip | tip in tips :: JoinsAt(env, known, ignoreCheckpoint, tip, i)
  }

  /** The fetched segment down to and including the first tipset where the fork may join. */
  ghost function UpToJoin(env: Env, known: TipSet, ignoreCheckpoint: bool, tips: seq<TipSet>): seq<TipSet> {
    if tips == [] then []
    else if exists i :: JoinsAt(env, known, ignoreCheckpoint, tips[0], i) then [tips[0]]
    else [tips[0]] + UpToJoin(env, known, ignoreCheckpoint, tips[1..])
  }

  lemma {:induction false} UpToFirstJoin(env: Env, known: TipSet, ignoreCheckpoint: bool, tips: seq<TipSet>, cur: nat)
    requires cur < |tips| && exists i :: JoinsAt(env, known, ignoreCheckpoint, tips[cur], i)
    requires forall c | 0 <= c < cur :: NotOurs(known, tips[c])
    ensures UpToJoin(env, known, ignoreCheckpoint, tips) == tips[..cur + 1]
  {
    if cur == 0 {
      assert tips[..1] == [tips[0]];
    } else {
      assert NotOurs(known, tips[0]);
      UpToFirstJoin(env, known, ignoreCheckpoint, tips[1..], cur - 1);
      assert tips[..cur + 1] == [tips[0]] + tips[1..][..cur];
    }
  }

  lemma NoJoin(env: Env, known: TipSet, ignoreCheckpoint: bool, tips: seq<TipSet>, cur: nat, m: nat)
    requires cur <= |tips| && (cur == |tips| || Hopeless(env, known, ignoreCheckpoint, m))
    requires forall c | 0 <= c < cur :: NotOurs(known, tips[c])
    requires forall c | cur <= c < |tips| :: NotWithin(known, tips[c], m)
    ensures !Joins(env, known, ignoreCheckpoint, tips)
  {
    forall i, tip | tip in tips
      ensures !JoinsAt(env, known, ignoreCheckpoint, tip, i)
    {
      var c :| 0 <= c < |tips| && tips[c] == tip;
      if c < cur {
        assert NotOurs(known, tips[c]);
      } else {
        assert NotWithin(known, tips[c], m);
      }
    }
  }

  /** Below height 0 there is nothing left of a descending chain. */
  lemma NothingBelowGenesis(known: TipSet, m: nat)
    requires Descending(known) && Back(known, m) != [] && Back(known, m)[0].height == 0
    ensures forall n | n > m :: Back(known, n) == []
  {
    forall n | n > m
      ensures Back(known, n) == []
    {
      if Back(known, n) != [] {
        DeeperIsLower(known, m, n);
        DescendingBack(known, n);
      }
    }
  }

  /** Our chain can be followed m steps back, past no checkpoint. */
  ghost predicate Followed(env: Env, known: TipSet, ignoreCheckpoint: bool, m: nat) {
    (forall j | 1 <= j <= m :: Back(known, j) in env.local) && !PassesCheckpoint(env, known, ignoreCheckpoint, m)
  }

  /** What stops the step back from our m-th ancestor, if anything does. */
  function StepBackError(env: Env, nts: TipSet, ignoreCheckpoint: bool, m: nat): Option<ForkError> {
    if m + 1 > env.forkLengthThreshold then Some(ForkTooLong)
    else if !ignoreCheckpoint && env.checkpoint == Some(nts) then Some(ForkCheckpoint)
    else if Parents(nts) !in env.local then Some(LoadFailed)
    else None
  }

  /** What ends a search that does not meet the fork at our m-th ancestor, if anything does there: height 0, a tipset
      below all that was fetched, or something that stops the step back. */
  function Stop(env: Env, nts: TipSet, ignoreCheckpoint: bool, tips: seq<TipSet>, m: nat): Option<ForkError>
    requires |tips| > 0
  {
    if m > 0 && Height(nts) == 0 then Some(if nts != env.genesis then WrongGenesis else ForkedAtGenesis)
    else if m > 0 && Height(nts) < Height(Last(tips)) then Some(ForkTooLong)
    else StepBackError(env, nts, ignoreCheckpoint, m)
  }

  /** The error of a search that goes on from our m-th ancestor and finds nothing. */
  function SearchError(env: Env, nts: TipSet, ignoreCheckpoint: bool, tips: seq<TipSet>, m: nat): ForkError
    requires |tips| > 0
    decreases env.forkLengthThreshold - m
  {
    match Stop(env, nts, ignoreCheckpoint, tips, m)
    case Some(e) => e
    case None => SearchError(env, Parents(nts), ignoreCheckpoint, tips, m + 1)
  }

  /** What a search for the join gives: the fetched tipsets down to and including the first that is ours, exactly when
      the fork joins at one of them, and otherwise the error of the first ancestor of ours that stops the search. */
  ghost predicate JoinFound(env: Env, known: TipSet, ignoreCheckpoint: bool, tips: seq<TipSet>,
                            r: Result<seq<TipSet>, ForkError>)
    requires |tips| > 0
  {
    && (r.Ok? <==> Joins(env, known, ignoreCheckpoint, tips))
    && (r.Ok? ==>
          && 1 <= |r.value| <= |tips| && r.value == tips[..|r.value|]
          && r.value == UpToJoin(env, known, ignoreCheckpoint, tips)
          && (exists i :: JoinsAt(env, known, ignoreCheckpoint, Last(r.value), i))
          && (forall c | 0 <= c < |r.value| - 1 :: NotOurs(known, r.value[c])))
    && (r.Err? ==> r.error == SearchError(env, known, ignoreCheckpoint, tips, 0))
  }

  /** Where the two-pointer walk stands: our chain is followed m steps back, what was fetched before `cur` is not ours,
      and nothing from `cur` on is among our first m - 1 ancestors. */
  ghost predicate Searching(env: Env, known: TipSet, ignoreCheckpoint: bool, tips: seq<TipSet>, cur: nat, m: nat) {
    && cur <= |tips| && 0 < |tips| && 1 <= m <= env.forkLengthThreshold
    && FormsTipSet(Back(known, m)) && Followed(env, known, ignoreCheckpoint, m)
    && SearchError(env, known, ignoreCheckpoint, tips, 0) == SearchError(env, Back(known, m), ignoreCheckpoint, tips, m)
    && (cur > 0 ==> Height(Back(known, m)) < Height(tips[cur - 1]))
    && (forall c | 0 <= c < cur :: NotOurs(known, tips[c]))
    && (forall c | cur <= c < |tips| :: NotWithin(known, tips[c], m))
  }

  lemma SearchFound(env: Env, known: TipSet, ignoreCheckpoint: bool, tips: seq<TipSet>, cur: nat, m: nat)
    requires Searching(env, known, ignoreCheckpoint, tips, cur, m) && cur < |tips|
    requires Back(known, m) == tips[cur] && Height(tips[cur]) != 0
    ensures JoinFound(env, known, ignoreCheckpoint, tips, Ok(tips[..cur + 1]))
  {
    assert JoinsAt(env, known, ignoreCheckpoint, tips[cur], m);
    UpToFirstJoin(env, known, ignoreCheckpoint, tips, cur);
    assert Last(tips[..cur + 1]) == tips[cur];
  }

  lemma SearchAtGenesis(env: Env, known: TipSet, ignoreCheckpoint: bool, tips: seq<TipSet>, cur: nat, m: nat)
    requires Searching(env, known, ignoreCheckpoint, tips, cur, m) && Descending(known) && Height(Back(known, m)) == 0
    ensures JoinFound(env, known, ignoreCheckpoint, tips,
                      Err(if Back(known, m) != env.genesis then WrongGenesis else ForkedAtGenesis))
  {
    NothingBelowGenesis(known, m);
    NoJoin(env, known, ignoreCheckpoint, tips, cur, m);
  }

  lemma SearchExhausted(env: Env, known: TipSet, ignoreCheckpoint: bool, tips: seq<TipSet>, m: nat)
    requires Searching(env, known, ignoreCheckpoint, tips, |tips|, m) && Height(Back(known, m)) != 0
    ensures JoinFound(env, known, ignoreCheckpoint, tips, Err(ForkTooLong))
  {
    NoJoin(env, known, ignoreCheckpoint, tips, |tips|, m);
  }

  /** The cursor moves on over a tipset higher than ours. */
  lemma SearchOn(env: Env, known: TipSet, ignoreCheckpoint: bool, tips: seq<TipSet>, cur: nat, m: nat)
    requires Searching(env, known, ignoreCheckpoint, tips, cur, m) && cur < |tips| && Descending(known)
    requires Back(known, m) != tips[cur] && Height(Back(known, m)) < Height(tips[cur])
    ensures Searching(env, known, ignoreCheckpoint, tips, cur + 1, m)
  {
    BelowTip(known, m, tips[cur]);
  }

  /** The tipset at `cur` is no higher than ours, so neither is the last one: only the step back can stop the search. */
  lemma StopIsStepBack(env: Env, nts: TipSet, ignoreCheckpoint: bool, tips: seq<TipSet>, cur: nat, m: nat)
    requires cur < |tips| && Connected(tips) && Height(tips[cur]) <= Height(nts) && Height(nts) != 0
    ensures Stop(env, nts, ignoreCheckpoint, tips, m) == StepBackError(env, nts, ignoreCheckpoint, m)
  {
    if cur < |tips| - 1 {
      ConnectedHeights(tips, cur, |tips| - 1);
    }
  }

  lemma StepBackFails(env: Env, known: TipSet, ignoreCheckpoint: bool, tips: seq<TipSet>, cur: nat, m: nat)
    requires Searching(env, known, ignoreCheckpoint, tips, cur, m)
    requires var nts := Back(known, m);
             && StepBackError(env, nts, ignoreCheckpoint, m).Some?
             && Stop(env, nts, ignoreCheckpoint, tips, m) == StepBackError(env, nts, ignoreCheckpoint, m)
    requires forall c | cur <= c < |tips| :: NotWithin(known, tips[c], m + 1)
    ensures JoinFound(env, known, ignoreCheckpoint, tips,
                      Err(StepBackError(env, Back(known, m), ignoreCheckpoint, m).value))
  {
    BackSum(known, m, 1);
    assert Hopeless(env, known, ignoreCheckpoint, m + 1);
    NoJoin(env, known, ignoreCheckpoint, tips, cur, m + 1);
  }

  lemma StepBackOk(env: Env, known: TipSet, ignoreCheckpoint: bool, tips: seq<TipSet>, cur: nat, m: nat)
    requires Searching(env, known, ignoreCheckpoint, tips, cur, m) && Descending(known)
    requires Stop(env, Back(known, m), ignoreCheckpoint, tips, m).None?
    requires forall c | cur <= c < |tips| :: NotWithin(known, tips[c], m + 1)
    ensures Searching(env, known, ignoreCheckpoint, tips, cur, m + 1)
    ensures Back(known, m + 1) == Parents(Back(known, m)) && 0 <= Height(Back(known, m + 1)) < Height(Back(known, m))
  {
    BackSum(known, m, 1);
    DeeperIsLower(known, m, m + 1);
    DescendingBack(known, m + 1);
  }

  /** The step back from a tipset that is no lower than the one at `cur` and not the same. */
  lemma StepBack(env: Env, known: TipSet, ignoreCheckpoint: bool, tips: seq<TipSet>, cur: nat, m: nat, nts: TipSet)
    requires Searching(env, known, ignoreCheckpoint, tips, cur, m) && cur < |tips| && nts == Back(known, m)
    requires Descending(known) && Connected(tips) && nts != tips[cur] && Height(tips[cur]) <= Height(nts) != 0
    ensures var e := StepBackError(env, nts, ignoreCheckpoint, m);
            if e.Some? then JoinFound(env, known, ignoreCheckpoint, tips, Err(e.value))
            else
              && Searching(env, known, ignoreCheckpoint, tips, cur, m + 1)
              && Back(known, m + 1) == Parents(nts) && 0 <= Height(Parents(nts)) < Height(nts)
  {
    AboveTips(known, tips, cur, m);
    StopIsStepBack(env, nts, ignoreCheckpoint, tips, cur, m);
    if StepBackError(env, nts, ignoreCheckpoint, m).Some? {
      StepBackFails(env, known, ignoreCheckpoint, tips, cur, m);
    } else {
      StepBackOk(env, known, ignoreCheckpoint, tips, cur, m);
    }
  }

  /** The two-pointer walk of syncFork, from the parent of `known` on our side. */
  method WalkToJoin(env: Env, known: TipSet, ignoreCheckpoint: bool, chkpt: Option<TipSet>, tips: seq<TipSet>)
    returns (r: Result<seq<TipSet>, ForkError>)
    requires Descending(known) && env.forkLengthThreshold >= 1 && |tips| > 0 && Connected(tips)
    requires FormsTipSet(Parents(known)) && Parents(known) in env.local
    requires chkpt == (if ignoreCheckpoint then None else env.checkpoint) && chkpt != Some(known)
    ensures JoinFound(env, known, ignoreCheckpoint, tips, r)
  {
    assert Back(known, 0) == known && Back(known, 1) == Parents(known);
    var nts: TipSet := Parents(known);
    var forkLengthInHead := 1;
    var cur := 0;
    DescendingBack(known, 1);
    while cur < |tips|
      invariant 0 <= cur <= |tips| && nts == Back(known, forkLengthInHead) && Height(nts) >= 0
      invariant Searching(env, known, ignoreCheckpoint, tips, cur, forkLengthInHead)
      invariant cur == |tips| ==> Height(nts) != 0
      decreases Height(nts), |tips| - cur
    {
      if Height(nts) == 0 {
        SearchAtGenesis(env, known, ignoreCheckpoint, tips, cur, forkLengthInHead);
        if nts != env.genesis {
          return Err(WrongGenesis);
        }
        return Err(ForkedAtGenesis);
      }
      if nts == tips[cur] {
        SearchFound(env, known, ignoreCheckpoint, tips, cur, forkLengthInHead);
        return Ok(tips[..cur + 1]);
      }
      if Height(nts) < Height(tips[cur]) {
        SearchOn(env, known, ignoreCheckpoint, tips, cur, forkLengthInHead);
        cur := cur + 1;
      } else {
        StepBack(env, known, ignoreCheckpoint, tips, cur, forkLengthInHead, nts);
        forkLengthInHead := forkLengthInHead + 1;
        if forkLengthInHead > env.forkLengthThreshold {
          return Err(ForkTooLong);
        }
        if chkpt == Some(nts) {
          return Err(ForkCheckpoint);
        }
        if Parents(nts) !in env.local {
          return Err(LoadFailed);
        }
        nts := Parents(nts);
      }
    }
    SearchExhausted(env, known, ignoreCheckpoint, tips, forkLengthInHead);
    return Err(ForkTooLong);
  }

  /** Our head is the checkpoint, and checkpoints count. */
  predicate CheckpointedHead(env: Env, known: TipSet, ignoreCheckpoint: bool) {
    !ignoreCheckpoint && env.checkpoint == Some(known)
  }

  /** syncFork looks for the tipset where the fork left our chain. It succeeds exactly when the fork can be fetched and
      joins our chain within it, and then returns the fetched segment down to and including the first such tipset. */
  method SyncFork(env: Env, call: nat, incoming: TipSet, known: TipSet, ignoreCheckpoint: bool)
    returns (r: Result<seq<TipSet>, ForkError>)
    requires Descending(known) && env.forkLengthThreshold >= 1
    ensures var tips := GetBlocks(env, call, Parents(incoming), env.forkLengthThreshold);
            if tips.Some? then JoinFound(env, known, ignoreCheckpoint, tips.value, r)
            else r == Err(if CheckpointedHead(env, known, ignoreCheckpoint) then ForkCheckpoint else FetchFailed)
  {
    assert Back(known, 0) == known && Back(known, 1) == Parents(known);
    var chkpt: Option<TipSet> := None;
    if !ignoreCheckpoint {
      chkpt := env.checkpoint;
      if chkpt == Some(known) {
        assert Hopeless(env, known, ignoreCheckpoint, 1);
        return Err(ForkCheckpoint);
      }
    }
    var tips := GetBlocks(env, call, Parents(incoming), env.forkLengthThreshold);
    if tips.None? {
      return Err(FetchFailed);
    }
    if Parents(known) !in env.local {
      NoJoin(env, known, ignoreCheckpoint, tips.value, 0, 1);
      return Err(LoadFailed);
    }
    r := WalkToJoin(env, known, ignoreCheckpoint, chkpt, tips.value);
  }

  /** Where a fork may join, a checkpoint on our chain is kept: the tipset is the checkpoint or descends from it. */
  lemma JoinKeepsCheckpoint(env: Env, known: TipSet, tip: TipSet, i: nat)
    requires JoinsAt(env, known, false, tip, i)
    requires env.checkpoint.Some? && OnChainOf(env.checkpoint.value, known)
    ensures OnChainOf(env.checkpoint.value, tip)
  {
    var n: nat :| Back(known, n) == env.checkpoint.value;
    assert !PassesCheckpoint(env, known, false, i);
    assert n >= i;
    BackSum(known, i, n - i);
  }

  // -- what the error says about our chain

  /** Our chain can be followed m steps back, past no checkpoint, and is not below all that was fetched before that. */
  ghost predicate GotTo(env: Env, known: TipSet, ignoreCheckpoint: bool, tips: seq<TipSet>, m: nat)
    requires |tips| > 0
  {
    && m <= env.forkLengthThreshold && Followed(env, known, ignoreCheckpoint, m)
    && (m >= 2 ==> Height(Back(known, m - 1)) >= Height(Last(tips)))
  }

  /** At our m-th ancestor the search stops with this error. */
  ghost predicate StopsAt(env: Env, known: TipSet, ignoreCheckpoint: bool, tips: seq<TipSet>, m: nat, e: ForkError)
    requires |tips| > 0
  {
    GotTo(env, known, ignoreCheckpoint, tips, m) && FormsTipSet(Back(known, m))
    && Stop(env, Back(known, m), ignoreCheckpoint, tips, m) == Some(e)
  }

  /** A search that gets past one of our ancestors was not stopped there. */
  lemma PassedBy(env: Env, known: TipSet, ignoreCheckpoint: bool, tips: seq<TipSet>, j: nat, m: nat)
    requires |tips| > 0 && Descending(known) && j < m && GotTo(env, known, ignoreCheckpoint, tips, m)
    ensures FormsTipSet(Back(known, j)) && Stop(env, Back(known, j), ignoreCheckpoint, tips, j).None?
    ensures Back(known, j + 1) == Parents(Back(known, j)) && GotTo(env, known, ignoreCheckpoint, tips, j + 1)
  {
    BackSum(known, j, 1);
    assert Back(known, m) in env.local && Back(known, j + 1) in env.local;
    DescendingBack(known, m);
    DeeperIsLower(known, j, m);
    if 0 < j < m - 1 {
      DeeperIsLower(known, j, m - 1);
    }
  }

  lemma GotEarlier(env: Env, known: TipSet, ignoreCheckpoint: bool, tips: seq<TipSet>, m: nat)
    requires |tips| > 0 && Descending(known) && m > 0 && GotTo(env, known, ignoreCheckpoint, tips, m)
    ensures GotTo(env, known, ignoreCheckpoint, tips, m - 1)
  {
    if m > 1 {
      PassedBy(env, known, ignoreCheckpoint, tips, m - 2, m);
    }
  }

  lemma {:induction false} ErrorPassesOn(env: Env, known: TipSet, ignoreCheckpoint: bool, tips: seq<TipSet>, m: nat)
    requires |tips| > 0 && Descending(known) && GotTo(env, known, ignoreCheckpoint, tips, m)
    ensures FormsTipSet(Back(known, m))
    ensures SearchError(env, known, ignoreCheckpoint, tips, 0)
         == SearchError(env, Back(known, m), ignoreCheckpoint, tips, m)
  {
    if m > 0 {
      GotEarlier(env, known, ignoreCheckpoint, tips, m);
      PassedBy(env, known, ignoreCheckpoint, tips, m - 1, m);
      ErrorPassesOn(env, known, ignoreCheckpoint, tips, m - 1);
    }
  }

  lemma {:induction false} ErrorStops(env: Env, known: TipSet, ignoreCheckpoint: bool, tips: seq<TipSet>, m: nat,
                                      e: ForkError)
    requires |tips| > 0 && GotTo(env, known, ignoreCheckpoint, tips, m) && FormsTipSet(Back(known, m))
    requires e == SearchError(env, Back(known, m), ignoreCheckpoint, tips, m)
    ensures exists k :: StopsAt(env, known, ignoreCheckpoint, tips, k, e)
    decreases env.forkLengthThreshold - m
  {
    BackSum(known, m, 1);
    if Stop(env, Back(known, m), ignoreCheckpoint, tips, m).Some? {
      assert StopsAt(env, known, ignoreCheckpoint, tips, m, e);
    } else {
      ErrorStops(env, known, ignoreCheckpoint, tips, m + 1, e);
    }
  }

  /** A failed search has exactly the error that stops it at the one ancestor of ours it gets to and not beyond. */
  lemma ErrorIsFirstStop(env: Env, known: TipSet, ignoreCheckpoint: bool, tips: seq<TipSet>, e: ForkError)
    requires |tips| > 0 && Descending(known)
    ensures SearchError(env, known, ignoreCheckpoint, tips, 0) == e
            <==> exists m :: StopsAt(env, known, ignoreCheckpoint, tips, m, e)
  {
    ErrorStops(env, known, ignoreCheckpoint, tips, 0, SearchError(env, known, ignoreCheckpoint, tips, 0));
    if m :| StopsAt(env, known, ignoreCheckpoint, tips, m, e) {
      ErrorPassesOn(env, known, ignoreCheckpoint, tips, m);
    }
  }

  /** Our m-th ancestor is above height 0, and below all that was fetched or as far back as a fork may go. */
  ghost predicate RunsOut(env: Env, known: TipSet, ignoreCheckpoint: bool, tips: seq<TipSet>, m: nat)
    requires |tips| > 0
  {
    && m >= 1 && GotTo(env, known, ignoreCheckpoint, tips, m) && Height(Back(known, m)) != 0
    && (Height(Back(known, m)) < Height(Last(tips)) || m == env.forkLengthThreshold)
  }

  /** Our m-th ancestor, which would have to be left behind, is the checkpoint. */
  ghost predicate LeavesCheckpoint(env: Env, known: TipSet, ignoreCheckpoint: bool, tips: seq<TipSet>, m: nat)
    requires |tips| > 0
  {
    && m < env.forkLengthThreshold && GotTo(env, known, ignoreCheckpoint, tips, m)
    && !ignoreCheckpoint && env.checkpoint.Some? && env.checkpoint.value == Back(known, m)
    && (m >= 1 ==> Height(Back(known, m)) != 0 && Height(Back(known, m)) >= Height(Last(tips)))
  }

  /** The two errors for which the announced tipset is marked bad, by where our chain leads. */
  lemma DeniedExactly(env: Env, known: TipSet, ignoreCheckpoint: bool, tips: seq<TipSet>)
    requires |tips| > 0 && Descending(known) && env.forkLengthThreshold >= 1
    ensures SearchError(env, known, ignoreCheckpoint, tips, 0) == ForkTooLong
            <==> exists m :: RunsOut(env, known, ignoreCheckpoint, tips, m)
    ensures SearchError(env, known, ignoreCheckpoint, tips, 0) == ForkCheckpoint
            <==> exists m :: LeavesCheckpoint(env, known, ignoreCheckpoint, tips, m)
  {
    ErrorIsFirstStop(env, known, ignoreCheckpoint, tips, ForkTooLong);
    ErrorIsFirstStop(env, known, ignoreCheckpoint, tips, ForkCheckpoint);
    forall m
      ensures StopsAt(env, known, ignoreCheckpoint, tips, m, ForkTooLong)
              <==> RunsOut(env, known, ignoreCheckpoint, tips, m)
      ensures StopsAt(env, known, ignoreCheckpoint, tips, m, ForkCheckpoint)
              <==> LeavesCheckpoint(env, known, ignoreCheckpoint, tips, m)
    {
    }
  }
}
