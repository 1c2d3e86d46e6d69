/** What becomes of every peer head, worker report and tick: which targets are started, queued or forgotten. */
module SchedulingOutcomes {
  import opened Outcomes
  import opened Tipsets
  import opened SyncBuckets
  import opened SyncBuffers
  import opened Scheduling
  import opened SchedulingSafety

  /** One of the last successful syncs was of ts or of something heavier. */
  ghost predicate Remembered(cfg: Config, synced: seq<Key>, ts: Key) {
    exists k | 0 <= k < |synced| && k >= |synced| - cfg.recentSize ::
      synced[k] == ts || Weight(synced[k]) > Weight(ts)
  }

  lemma RememberedIsRecent(cfg: Config, s: State, ts: Key)
    ensures RecentlySynced(cfg, s, ts) <==> Remembered(cfg, s.synced, ts)
  {
    var h, n := s.synced, cfg.recentSize;
    var list, from := LastN(h, n), if |h| <= n then 0 else |h| - n;
    assert forall i | 0 <= i < |list| :: list[i] == h[from + i];
    if RecentlySynced(cfg, s, ts) {
      var r :| r in list && (r == ts || Weight(r) > Weight(ts));
      var i :| 0 <= i < |list| && list[i] == r;
      assert h[from + i] == r;
    }
    if k :| 0 <= k < |h| && k >= |h| - n && (h[k] == ts || Weight(h[k]) > Weight(ts)) {
      assert list[k - from] in list;
    }
  }

  /** ts is, extends or is extended by a tipset that is pending. */
  ghost predicate Attached(s: State, ts: Key) {
    exists u | u in Tips(s.pend) :: ts == u || Parents(ts) == u || Parents(u) == ts
  }

  lemma AttachedIsRelated(s: State, ts: Key)
    ensures RelatedToAny(s.pend, ts) <==> Attached(s, ts)
  {
    if RelatedToAny(s.pend, ts) {
      var i :| 0 <= i < |s.pend| && SameChain(s.pend[i], ts);
      var j :| 0 <= j < |s.pend[i]| && Related(ts, s.pend[i][j]);
      var u := s.pend[i][j];
      assert u in s.pend[i];
    }
    if u :| u in Tips(s.pend) && Related(ts, u) {
      var i :| 0 <= i < |s.pend| && u in s.pend[i];
      var j :| 0 <= j < |s.pend[i]| && s.pend[i][j] == u;
      assert SameChain(s.pend[i], ts);
    }
  }

  /** A worker's target or a pending tipset is heavier than ts. */
  ghost predicate Outweighed(s: State, ts: Key) {
    (exists w | w in s.workers.Values :: Weight(w) > Weight(ts))
    || (exists u | u in Tips(s.pend) :: Weight(u) > Weight(ts))
  }

  lemma OutweighedIsHeavier(s: State, ts: Key)
    requires BucketsOk(s.pend)
    ensures HeavierWorker(s, ts) || HeavierPending(s, ts) <==> Outweighed(s, ts)
  {
    if w :| w in s.workers.Values && Weight(w) > Weight(ts) {
      var id :| id in s.workers && s.workers[id] == w;
      assert HeavierWorker(s, ts);
    }
    if HeavierWorker(s, ts) {
      var id :| id in s.workers && Weight(s.workers[id]) > Weight(ts);
      assert s.workers[id] in s.workers.Values;
    }
    assert Tips([]) == {};
  }

  /** Heads, the record of syncs and the phase are as they were. */
  ghost predicate SamePhase(s: State, t: State) {
    t.heads == s.heads && t.synced == s.synced && t.initialSyncDone == s.initialSyncDone && t.ticking == s.ticking
  }

  /** A worker on ts joins the others; the queues are as they were. */
  ghost predicate Started(s: State, ts: Key, t: State) {
    && SamePhase(s, t) && t.workers == s.workers[s.nextWorker := ts] && t.nextWorker == s.nextWorker + 1
    && t.pend == s.pend && t.deferred == s.deferred
  }

  /** ts joins the pending tipsets; nothing else changes. */
  ghost predicate Queued(s: State, ts: Key, t: State) {
    t == s.(pend := t.pend) && Tips(t.pend) == Tips(s.pend) + {ts}
  }

  /** ts joins the deferred tipsets; nothing else changes. */
  ghost predicate Postponed(s: State, ts: Key, t: State) {
    t == s.(deferred := t.deferred) && Tips(t.deferred) == Tips(s.deferred) + {ts}
  }

  /** A head that comes in once the first worker has been started. */
  ghost predicate HeadComes(cfg: Config, s: State, e: Event) {
    Inv(cfg, s) && e.PeerHead? && s.nextWorker > 0 && Enabled(cfg, s, e)
  }

  // Peer heads.

  /** Heads are only collected until enough peers are known. */
  lemma FewPeersWait(cfg: Config, s: State, e: Event)
    requires Inv(cfg, s) && e.PeerHead? && s.nextWorker == 0 && Enabled(cfg, s, e)
    requires |s.heads.value[e.peer := e.ts]| < cfg.bootstrapPeers
    ensures var t := Step(cfg, s, e);
            t == s.(heads := t.heads) && t.heads == Some(s.heads.value[e.peer := e.ts]) && t.workers == map[]
  {
  }

  lemma HeaviestHead(heads: map<Peer, Key>, sorted: seq<Key>, p: Peer)
    requires SortedHeads(heads, sorted) && p in heads
    ensures var t := HeaviestOf(InsertAll(sorted));
            t.Some? && t.value in heads.Values && forall q | q in heads :: Weight(heads[q]) <= Weight(t.value)
  {
    assert heads[p] in heads.Values && heads[p] in sorted;
    InitialIsHeaviest(sorted);
    assert forall q | q in heads :: heads[q] in sorted;
  }

  /** With enough peers the first worker starts on a heaviest of the collected heads. */
  lemma EnoughPeersStart(cfg: Config, s: State, e: Event)
    requires Inv(cfg, s) && e.PeerHead? && s.nextWorker == 0 && Enabled(cfg, s, e)
    requires |s.heads.value[e.peer := e.ts]| >= cfg.bootstrapPeers
    ensures var heads, t := s.heads.value[e.peer := e.ts], Step(cfg, s, e);
            && t.heads.None? && t.workers.Keys == {0} && t.workers[0] in heads.Values
            && forall p | p in heads :: Weight(heads[p]) <= Weight(t.workers[0])
  {
    HeaviestHead(s.heads.value[e.peer := e.ts], e.sorted, e.peer);
  }

  /** An idle scheduler starts on every head that it does not remember. */
  lemma IdleHeadStarts(cfg: Config, s: State, e: Event)
    requires HeadComes(cfg, s, e) && s.workers == map[]
    ensures var t := Step(cfg, s, e);
            && t.pend == t.deferred == []
            && t.workers == if Remembered(cfg, s.synced, e.ts) then map[] else map[s.nextWorker := e.ts]
  {
    RememberedIsRecent(cfg, s, e.ts);
  }

  /** A head that is remembered, or that a worker is on whose parent is no worker's, changes nothing. */
  lemma KnownHeadIsIgnored(cfg: Config, s: State, e: Event)
    requires HeadComes(cfg, s, e)
    requires Remembered(cfg, s.synced, e.ts)
             || (e.ts in s.workers.Values && Parents(e.ts) !in s.workers.Values)
    ensures Step(cfg, s, e) == s
  {
    RememberedIsRecent(cfg, s, e.ts);
    if e.ts in s.workers.Values {
      var id :| id in s.workers && s.workers[id] == e.ts;
      assert Touches(s.workers[id], e.ts);
      assert Parents(e.ts) !in s.workers.Values ==> s.workers[e.hit.value] != Parents(e.ts);
    }
  }

  /** A head on top of a worker's target, or related to a pending tipset, becomes pending. */
  lemma ExtensionIsQueued(cfg: Config, s: State, e: Event)
    requires HeadComes(cfg, s, e) && !Remembered(cfg, s.synced, e.ts)
    requires e.ts !in s.workers.Values && (Parents(e.ts) in s.workers.Values || Attached(s, e.ts))
    ensures Queued(s, e.ts, Step(cfg, s, e))
  {
    RememberedIsRecent(cfg, s, e.ts);
    AttachedIsRelated(s, e.ts);
    InsertKeepsTips(s.pend, e.ts);
    assert s.pend == [] ==> Tips(s.pend) == {};
    if Parents(e.ts) in s.workers.Values {
      var id :| id in s.workers && s.workers[id] == Parents(e.ts);
      assert Touches(s.workers[id], e.ts);
    }
    assert e.hit.Some? ==> s.workers[e.hit.value] in s.workers.Values;
  }

  /** A head that one worker is on and another's target is the parent of is ignored or becomes pending, whichever worker
      is found first. */
  lemma DoublyTouchedHead(cfg: Config, s: State, e: Event)
    requires HeadComes(cfg, s, e) && !Remembered(cfg, s.synced, e.ts)
    requires e.ts in s.workers.Values && Parents(e.ts) in s.workers.Values
    ensures e.hit.Some? && e.hit.value in s.workers
    ensures if s.workers[e.hit.value] == e.ts then Step(cfg, s, e) == s else Queued(s, e.ts, Step(cfg, s, e))
  {
    RememberedIsRecent(cfg, s, e.ts);
    InsertKeepsTips(s.pend, e.ts);
    var id :| id in s.workers && s.workers[id] == e.ts;
    assert Touches(s.workers[id], e.ts);
  }

  /** The head of a chain that has nothing to do with the workers and the pending tipsets. */
  ghost predicate IsFork(s: State, ts: Key) {
    && s.workers != map[] && ts !in s.workers.Values && Parents(ts) !in s.workers.Values
    && !Attached(s, ts)
  }

  lemma ForkHitsNothing(cfg: Config, s: State, e: Event)
    requires HeadComes(cfg, s, e) && IsFork(s, e.ts)
    ensures e.hit.None?
  {
    assert forall id | id in s.workers :: s.workers[id] in s.workers.Values;
  }

  /** A fork is ignored if something under way outweighs it.  Otherwise it is started at once if the initial sync is
      over and there is room for a worker, and deferred if not. */
  lemma ForkOutcome(cfg: Config, s: State, e: Event)
    requires HeadComes(cfg, s, e) && !Remembered(cfg, s.synced, e.ts) && IsFork(s, e.ts)
    ensures var t := Step(cfg, s, e);
            if Outweighed(s, e.ts) then t == s
            else if s.initialSyncDone && |s.workers| < cfg.maxWorkers then Started(s, e.ts, t)
            else Postponed(s, e.ts, t)
  {
    RememberedIsRecent(cfg, s, e.ts);
    AttachedIsRelated(s, e.ts);
    OutweighedIsHeavier(s, e.ts);
    ForkHitsNothing(cfg, s, e);
    InsertKeepsTips(s.deferred, e.ts);
  }

  // Deferred targets.

  /** The deferred target looked at next is a heaviest of all, and its bucket is all that leaves the queue. */
  lemma BestIsPopped(s: State)
    requires BucketsOk(s.deferred) && s.deferred != []
    ensures var (rest, best) := PopDeferred(s);
            && best in Tips(s.deferred) && (forall u | u in Tips(s.deferred) :: Weight(u) <= Weight(best))
            && exists k | 0 <= k < |s.deferred| :: best in s.deferred[k] && rest.deferred == Without(s.deferred, k)
  {
    var k := FirstMax(Heads(s.deferred));
    var best := Heaviest(s.deferred[k]);
    assert Heads(s.deferred)[k] == best;
    forall u | u in Tips(s.deferred)
      ensures Weight(u) <= Weight(best)
    {
      var i :| 0 <= i < |s.deferred| && u in s.deferred[i];
      assert Weight(u) <= Weight(Heads(s.deferred)[i]);
    }
  }

  /** Nothing speaks against starting ts, whichever worker it is compared with. */
  ghost predicate Startable(cfg: Config, s: State, ts: Key) {
    && !Remembered(cfg, s.synced, ts) && IsFork(s, ts)
    && forall w | w in s.workers.Values :: Weight(w) <= Weight(ts)
  }

  /** A worker that is on the target or on something heavier makes it forgotten, one on its parent makes it pending,
      and any other lets it start. */
  ghost predicate MeetsWorker(s: State, best: Key, w: Key, c: Choice) {
    if w == best || Weight(w) > Weight(best) then c.target.None? && c.s.pend == s.pend
    else if Parents(best) == w then c.target.None? && Tips(c.s.pend) == Tips(s.pend) + {best}
    else c.target == Some(best) && c.s.pend == s.pend
  }

  /** Whether a deferred target is forgotten, becomes pending or is started, and why. */
  ghost predicate Judged(cfg: Config, s: State, best: Key, c: Choice) {
    if Remembered(cfg, s.synced, best) then c.target.None? && c.s.pend == s.pend
    else if Attached(s, best) then c.target.None? && Tips(c.s.pend) == Tips(s.pend) + {best}
    else if s.workers == map[] then c.target.None? && c.s.pend == s.pend
    else exists w | w in s.workers.Values :: MeetsWorker(s, best, w, c)
  }

  /** One turn of the loop over the deferred queue. */
  lemma TurnOutcome(cfg: Config, s: State, picks: map<nat, nat>)
    requires BucketsOk(s.deferred) && s.deferred != []
    ensures Judged(cfg, s, PopDeferred(s).1, DeferredTurn(cfg, s, picks))
  {
    var rest, best := PopDeferred(s).0, PopDeferred(s).1;
    RememberedIsRecent(cfg, rest, best);
    AttachedIsRelated(rest, best);
    InsertKeepsTips(s.pend, best);
    if s.workers != map[] {
      var id := PickWorker(rest, |s.deferred|, picks);
      assert s.workers[id] in s.workers.Values;
      assert !RecentlySynced(cfg, rest, best) && !RelatedToAny(s.pend, best) ==>
          MeetsWorker(s, best, s.workers[id], DeferredTurn(cfg, s, picks));
    }
  }

  lemma TurnKeepsBuckets(cfg: Config, s: State, picks: map<nat, nat>)
    requires BucketsOk(s.pend) && BucketsOk(s.deferred) && s.deferred != []
    ensures BucketsOk(DeferredTurn(cfg, s, picks).s.pend)
  {
    InsertOk(s.pend, PopDeferred(s).1);
  }

  /** ts is the heaviest of bucket k, and nothing in the other buckets is related to it. */
  ghost predicate LeadsBucket(bs: seq<Bucket>, ts: Key, k: nat) {
    && k < |bs| && bs[k] != [] && Heaviest(bs[k]) == ts
    && forall i, u | 0 <= i < |bs| && i != k && u in bs[i] :: !Related(ts, u)
  }

  /** Taking out another bucket leaves ts in the lead of its own. */
  lemma LeadStays(bs: seq<Bucket>, ts: Key, k: nat, j: nat)
    requires LeadsBucket(bs, ts, k) && j < |bs| && j != k
    ensures LeadsBucket(Without(bs, j), ts, if k < j then k else k - 1)
  {
    var r := Without(bs, j);
    assert forall i | 0 <= i < |r| :: r[i] == bs[if i < j then i else i + 1];
  }

  /** A startable target is not passed over, and stays startable while others become pending. */
  lemma StaysStartable(cfg: Config, s: State, best: Key, c: Choice, ts: Key)
    requires Judged(cfg, s, best, c) && c.target.None? && Startable(cfg, s, ts)
    requires c.s == s.(pend := c.s.pend, deferred := c.s.deferred)
    ensures best != ts
    ensures !Related(ts, best) ==> Startable(cfg, c.s, ts)
  {
    assert Tips(c.s.pend) <= Tips(s.pend) + {best};
  }

  lemma TurnKeepsStartable(cfg: Config, s: State, ts: Key, k: nat, picks: map<nat, nat>) returns (at: nat)
    requires BucketsOk(s.pend) && BucketsOk(s.deferred) && Startable(cfg, s, ts) && LeadsBucket(s.deferred, ts, k)
    requires DeferredTurn(cfg, s, picks).target.None?
    ensures var t := DeferredTurn(cfg, s, picks).s;
            Startable(cfg, t, ts) && LeadsBucket(t.deferred, ts, at)
  {
    var j := FirstMax(Heads(s.deferred));
    var best := Heaviest(s.deferred[j]);
    TurnOutcome(cfg, s, picks);
    StaysStartable(cfg, s, best, DeferredTurn(cfg, s, picks), ts);
    at := if k < j then k else k - 1;
    LeadStays(s.deferred, ts, k, j);
  }

  /** A deferred target that nothing speaks against does not go under: some deferred target is started. */
  lemma {:induction false} StartableIsFound(cfg: Config, s: State, ts: Key, k: nat, picks: map<nat, nat>)
    requires BucketsOk(s.pend) && BucketsOk(s.deferred) && Startable(cfg, s, ts) && LeadsBucket(s.deferred, ts, k)
    ensures SelectDeferred(cfg, s, picks).target.Some?
    decreases |s.deferred|
  {
    var c := DeferredTurn(cfg, s, picks);
    if c.target.None? {
      var at := TurnKeepsStartable(cfg, s, ts, k, picks);
      TurnKeepsBuckets(cfg, s, picks);
      StartableIsFound(cfg, c.s, ts, at, picks);
    }
  }

  /** What is selected was deferred, is not remembered, and is at least as heavy as some worker's target. */
  ghost predicate Eligible(cfg: Config, s: State, c: Choice) {
    && Tips(c.s.deferred) <= Tips(s.deferred)
    && (c.target.Some? ==>
          && c.target.value in Tips(s.deferred) && !Remembered(cfg, s.synced, c.target.value)
          && exists w | w in s.workers.Values :: Weight(w) <= Weight(c.target.value))
  }

  lemma WithoutTips(bs: seq<Bucket>, k: nat)
    requires k < |bs|
    ensures Tips(Without(bs, k)) <= Tips(bs)
  {
    var r := Without(bs, k);
    assert forall i | 0 <= i < |r| :: r[i] == bs[if i < k then i else i + 1];
  }

  lemma JudgedIsEligible(cfg: Config, s: State, best: Key, c: Choice)
    requires Judged(cfg, s, best, c) && best in Tips(s.deferred) && Tips(c.s.deferred) <= Tips(s.deferred)
    ensures Eligible(cfg, s, c)
  {
    if c.target.Some? {
      var w :| w in s.workers.Values && MeetsWorker(s, best, w, c);
      assert Weight(w) <= Weight(best);
    }
  }

  lemma TurnPops(cfg: Config, s: State, picks: map<nat, nat>)
    requires BucketsOk(s.deferred) && s.deferred != []
    ensures PopDeferred(s).1 in Tips(s.deferred)
    ensures Tips(DeferredTurn(cfg, s, picks).s.deferred) <= Tips(s.deferred)
  {
    var k := FirstMax(Heads(s.deferred));
    assert DeferredTurn(cfg, s, picks).s.deferred == Without(s.deferred, k);
    assert PopDeferred(s).1 in s.deferred[k];
    WithoutTips(s.deferred, k);
  }

  lemma TurnIsEligible(cfg: Config, s: State, picks: map<nat, nat>)
    requires BucketsOk(s.deferred) && s.deferred != []
    ensures Eligible(cfg, s, DeferredTurn(cfg, s, picks))
  {
    TurnOutcome(cfg, s, picks);
    TurnPops(cfg, s, picks);
    JudgedIsEligible(cfg, s, PopDeferred(s).1, DeferredTurn(cfg, s, picks));
  }

  lemma {:induction false} SelectedIsEligible(cfg: Config, s: State, picks: map<nat, nat>)
    requires BucketsOk(s.deferred)
    ensures Eligible(cfg, s, SelectDeferred(cfg, s, picks))
    decreases |s.deferred|
  {
    if s.deferred != [] {
      TurnIsEligible(cfg, s, picks);
      var c := DeferredTurn(cfg, s, picks);
      if c.target.None? {
        SelectedIsEligible(cfg, c.s, picks);
      }
    }
  }

  // Selecting from the deferred queue, turn by turn.

  /** A heaviest of all deferred tipsets is judged, and its bucket leaves the queue. */
  ghost predicate TurnTo(cfg: Config, s: State, best: Key, c: Choice) {
    && c.s == s.(pend := c.s.pend, deferred := c.s.deferred)
    && best in Tips(s.deferred) && (forall u | u in Tips(s.deferred) :: Weight(u) <= Weight(best))
    && (exists k | 0 <= k < |s.deferred| :: best in s.deferred[k] && c.s.deferred == Without(s.deferred, k))
    && Judged(cfg, s, best, c)
  }

  /** From s, one turn after the other without a target, until one has a target or the queue is empty. */
  ghost predicate Trail(cfg: Config, s: State, bests: seq<Key>, us: seq<State>, c: Choice) {
    && |us| == |bests| + 1 && us[0] == s
    && (forall i {:trigger bests[i]} | 0 <= i < |bests| - 1 :: TurnTo(cfg, us[i], bests[i], Choice(us[i + 1], None)))
    && us[|bests|] == c.s
    && if bests == [] then s.deferred == [] && c.target.None?
       else
         && TurnTo(cfg, us[|bests| - 1], bests[|bests| - 1], c)
         && (c.target.Some? || c.s.deferred == [])
  }

  lemma TurnPopsBest(s: State, best: Key, rest: seq<Bucket>)
    requires BucketsOk(s.deferred) && s.deferred != []
    requires best == PopDeferred(s).1 && rest == PopDeferred(s).0.deferred
    ensures best in Tips(s.deferred) && forall u | u in Tips(s.deferred) :: Weight(u) <= Weight(best)
    ensures exists k | 0 <= k < |s.deferred| :: best in s.deferred[k] && rest == Without(s.deferred, k)
  {
    BestIsPopped(s);
  }

  lemma TurnIs(cfg: Config, s: State, best: Key, c: Choice)
    requires c.s == s.(pend := c.s.pend, deferred := c.s.deferred) && Judged(cfg, s, best, c)
    requires best in Tips(s.deferred) && forall u | u in Tips(s.deferred) :: Weight(u) <= Weight(best)
    requires exists k | 0 <= k < |s.deferred| :: best in s.deferred[k] && c.s.deferred == Without(s.deferred, k)
    ensures TurnTo(cfg, s, best, c)
  {
  }

  lemma OneTurn(cfg: Config, s: State, picks: map<nat, nat>, best: Key, c: Choice)
    requires BucketsOk(s.deferred) && s.deferred != []
    requires best == PopDeferred(s).1 && c == DeferredTurn(cfg, s, picks)
    ensures TurnTo(cfg, s, best, c)
  {
    TurnPopsBest(s, best, c.s.deferred);
    TurnOutcome(cfg, s, picks);
    TurnIs(cfg, s, best, c);
  }

  lemma TrailStarts(cfg: Config, s: State, best: Key, m: State, bests: seq<Key>, us: seq<State>, c: Choice)
    requires TurnTo(cfg, s, best, Choice(m, None)) && Trail(cfg, m, bests, us, c)
    ensures Trail(cfg, s, [best] + bests, [s] + us, c)
  {
    var bs, vs := [best] + bests, [s] + us;
    forall i {:trigger bs[i]} | 0 <= i < |bs| - 1
      ensures TurnTo(cfg, vs[i], bs[i], Choice(vs[i + 1], None))
    {
      if i > 0 {
        assert bs[i] == bests[i - 1] && vs[i] == us[i - 1];
      }
    }
    if bests == [] {
      assert m == c.s && c == Choice(m, None);
    } else {
      assert bs[|bests|] == bests[|bests| - 1];
    }
  }

  /** What is selected, and what it leaves, is what some such sequence of turns comes to. */
  lemma {:induction false} SelectTrail(cfg: Config, s: State, picks: map<nat, nat>)
    returns (bests: seq<Key>, us: seq<State>)
    requires BucketsOk(s.deferred)
    ensures Trail(cfg, s, bests, us, SelectDeferred(cfg, s, picks))
    decreases |s.deferred|
  {
    if s.deferred == [] {
      bests, us := [], [s];
    } else {
      var c, best := DeferredTurn(cfg, s, picks), PopDeferred(s).1;
      OneTurn(cfg, s, picks, best, c);
      if c.target.Some? {
        bests, us := [best], [s, c.s];
      } else {
        bests, us := SelectTrail(cfg, c.s, picks);
        TrailStarts(cfg, s, best, c.s, bests, us, SelectDeferred(cfg, c.s, picks));
        bests, us := [best] + bests, [s] + us;
      }
    }
  }

  // What becomes of the pending queue meanwhile.

  /** u was deferred, is not remembered, and is related to something else that is pending or is a child of the target
      of a worker that is not on something heavier. */
  ghost predicate Converges(cfg: Config, s: State, u: Key, pending: set<Key>, targets: set<Key>) {
    && u in Tips(s.deferred) && !Remembered(cfg, s.synced, u)
    && (|| (exists v | v in pending :: v != u && Related(u, v))
        || (Parents(u) in targets && Weight(Parents(u)) <= Weight(u)))
  }

  /** Nothing pending is lost, and only deferred tipsets that have converged join. */
  ghost predicate PendGrows(cfg: Config, s: State, t: State, targets: set<Key>) {
    && Tips(s.pend) <= Tips(t.pend) && (s.deferred == [] ==> t.pend == s.pend)
    && forall u | u in Tips(t.pend) && u !in Tips(s.pend) :: Converges(cfg, s, u, Tips(t.pend), targets)
  }

  /** The heaviest of a deferred bucket that has left the queue is pending, if it is related to a pending tipset and not
      remembered. */
  ghost predicate RelatedJoin(cfg: Config, s: State, t: State) {
    forall b | b in s.deferred && b !in t.deferred && b != [] ::
      !Remembered(cfg, s.synced, Heaviest(b)) && Attached(s, Heaviest(b)) ==> Heaviest(b) in Tips(t.pend)
  }

  lemma JudgedPend(cfg: Config, s: State, best: Key, c: Choice)
    requires Judged(cfg, s, best, c) && best in Tips(s.deferred) && s.deferred != []
    ensures PendGrows(cfg, s, c.s, s.workers.Values)
    ensures !Remembered(cfg, s.synced, best) && Attached(s, best) ==> best in Tips(c.s.pend)
  {
    forall u | u in Tips(c.s.pend) && u !in Tips(s.pend)
      ensures Converges(cfg, s, u, Tips(c.s.pend), s.workers.Values)
    {
      assert u == best;
      if Attached(s, best) {
        var v :| v in Tips(s.pend) && Related(best, v);
        assert v in Tips(c.s.pend) && v != u;
      } else {
        var w :| w in s.workers.Values && MeetsWorker(s, best, w, c);
      }
    }
  }

  lemma PendGrowsTrans(cfg: Config, s: State, m: State, t: State, early: set<Key>, late: set<Key>)
    requires PendGrows(cfg, s, m, early) && PendGrows(cfg, m, t, late) && early <= late
    requires Tips(m.deferred) <= Tips(s.deferred) && m.synced == s.synced && (s.deferred == [] ==> m.deferred == [])
    ensures PendGrows(cfg, s, t, late)
  {
    forall u | u in Tips(t.pend) && u !in Tips(s.pend)
      ensures Converges(cfg, s, u, Tips(t.pend), late)
    {
      if u in Tips(m.pend) {
        assert Converges(cfg, s, u, Tips(m.pend), early);
      } else {
        assert Converges(cfg, m, u, Tips(t.pend), late);
      }
    }
  }

  lemma RelatedJoinTrans(cfg: Config, s: State, m: State, t: State, k: nat)
    requires k < |s.deferred| && m.deferred == Without(s.deferred, k) && m.synced == s.synced && s.deferred[k] != []
    requires Tips(s.pend) <= Tips(m.pend) <= Tips(t.pend) && RelatedJoin(cfg, m, t)
    requires var best := Heaviest(s.deferred[k]);
             !Remembered(cfg, s.synced, best) && Attached(s, best) ==> best in Tips(m.pend)
    ensures RelatedJoin(cfg, s, t)
  {
    forall b | b in s.deferred && b !in t.deferred && b != []
      ensures !Remembered(cfg, s.synced, Heaviest(b)) && Attached(s, Heaviest(b)) ==> Heaviest(b) in Tips(t.pend)
    {
      if b != s.deferred[k] {
        var i :| 0 <= i < |s.deferred| && s.deferred[i] == b;
        assert m.deferred[if i < k then i else i - 1] == b;
        assert Attached(s, Heaviest(b)) ==> Attached(m, Heaviest(b));
      }
    }
  }

  lemma TurnPend(cfg: Config, s: State, picks: map<nat, nat>) returns (k: nat)
    requires BucketsOk(s.deferred) && s.deferred != []
    ensures k < |s.deferred| && s.deferred[k] != []
    ensures var c, best := DeferredTurn(cfg, s, picks), Heaviest(s.deferred[k]);
            && c.s.deferred == Without(s.deferred, k) && PendGrows(cfg, s, c.s, s.workers.Values)
            && (!Remembered(cfg, s.synced, best) && Attached(s, best) ==> best in Tips(c.s.pend))
  {
    k := FirstMax(Heads(s.deferred));
    var c, best := DeferredTurn(cfg, s, picks), Heaviest(s.deferred[k]);
    assert c.s.deferred == Without(s.deferred, k) && PopDeferred(s).1 == best;
    assert Judged(cfg, s, best, c) by { TurnOutcome(cfg, s, picks); }
    assert best in s.deferred[k] && best in Tips(s.deferred);
    JudgedPend(cfg, s, best, c);
  }

  /** However many deferred buckets are looked at, nothing pending is lost, what joins has converged, and what is
      related to a pending tipset does join. */
  lemma {:induction false} SelectedPend(cfg: Config, s: State, picks: map<nat, nat>)
    requires BucketsOk(s.deferred)
    ensures var t := SelectDeferred(cfg, s, picks).s;
            PendGrows(cfg, s, t, s.workers.Values) && RelatedJoin(cfg, s, t)
    decreases |s.deferred|
  {
    if s.deferred != [] {
      var k := TurnPend(cfg, s, picks);
      var c := DeferredTurn(cfg, s, picks);
      WithoutTips(s.deferred, k);
      if c.target.None? {
        SelectedPend(cfg, c.s, picks);
        var t := SelectDeferred(cfg, c.s, picks).s;
        PendGrowsTrans(cfg, s, c.s, t, s.workers.Values, s.workers.Values);
        RelatedJoinTrans(cfg, s, c.s, t, k);
      } else {
        assert RelatedJoin(cfg, c.s, c.s);
        RelatedJoinTrans(cfg, s, c.s, c.s, k);
      }
    }
  }

  // Worker reports.

  /** The choice made after a report, and the state it leaves. */
  lemma ReportChooses(cfg: Config, s: State, e: Event) returns (c: Choice)
    requires Inv(cfg, s) && e.WorkerDone? && Enabled(cfg, s, e)
    ensures Step(cfg, s, e) == Start(c) && c == SelectSyncTarget(cfg, Told(s, e), s.workers[e.id], e.picks)
    ensures c.s == Told(s, e).(pend := c.s.pend, deferred := c.s.deferred)
  {
    c := SelectSyncTarget(cfg, Told(s, e), s.workers[e.id], e.picks);
  }

  lemma StartKeeps(c: Choice)
    ensures var t := Start(c);
            && t.synced == c.s.synced && t.initialSyncDone == c.s.initialSyncDone
            && (forall id | id != c.s.nextWorker :: id in t.workers <==> id in c.s.workers)
            && (forall id | id in c.s.workers && id != c.s.nextWorker :: t.workers[id] == c.s.workers[id])
  {
  }

  /** What every report does: the worker is gone, a success is remembered, and a fast one ends the initial sync. */
  lemma ReportIsTaken(cfg: Config, s: State, e: Event)
    requires Inv(cfg, s) && e.WorkerDone? && Enabled(cfg, s, e)
    ensures var t := Step(cfg, s, e);
            && t.synced == s.synced + (if e.ok then [s.workers[e.id]] else [])
            && (t.initialSyncDone <==> s.initialSyncDone || (e.ok && e.fast))
            && e.id !in t.workers
            && forall id | id in s.workers && id != e.id :: id in t.workers && t.workers[id] == s.workers[id]
  {
    var c := ReportChooses(cfg, s, e);
    assert e.id < s.nextWorker;
    StartKeeps(c);
  }

  // Selecting from the deferred queue, as a step.

  /** Some sequence of turns leads to a target, which is then started, or to an empty queue. */
  ghost predicate ByTurns(cfg: Config, s: State, t: State) {
    exists bests, us, c :: Trail(cfg, s, bests, us, c) && Ends(c, t)
  }

  ghost predicate Ends(c: Choice, t: State) {
    if c.target.Some? then Started(c.s, c.target.value, t) else t == c.s
  }

  /** Either nothing is started and the queue is used up, or one eligible target is; meanwhile deferred tipsets that
      have converged join the pending ones. */
  ghost predicate DeferredTried(cfg: Config, s: State, t: State) {
    && ByTurns(cfg, s, t)
    && SamePhase(s, t) && PendGrows(cfg, s, t, s.workers.Values) && RelatedJoin(cfg, s, t)
    && if t.nextWorker == s.nextWorker then t.workers == s.workers && t.deferred == []
    else exists ts | ts in Tips(s.deferred) ::
      && t.workers == s.workers[s.nextWorker := ts]
      && |t.deferred| < |s.deferred| && Tips(t.deferred) <= Tips(s.deferred)
      && !Remembered(cfg, s.synced, ts) && exists w | w in s.workers.Values :: Weight(w) <= Weight(ts)
  }

  /** Some deferred target leads its bucket and has nothing against it. */
  ghost predicate SomeStartable(cfg: Config, s: State) {
    exists ts, k :: LeadsBucket(s.deferred, ts, k) && Startable(cfg, s, ts)
  }

  lemma SomeIsFound(cfg: Config, s: State, picks: map<nat, nat>)
    requires BucketsOk(s.pend) && BucketsOk(s.deferred) && SomeStartable(cfg, s)
    ensures SelectDeferred(cfg, s, picks).target.Some?
  {
    var ts, k :| LeadsBucket(s.deferred, ts, k) && Startable(cfg, s, ts);
    StartableIsFound(cfg, s, ts, k, picks);
  }

  lemma ByTurnsIndeed(cfg: Config, s: State, picks: map<nat, nat>)
    requires BucketsOk(s.deferred)
    ensures ByTurns(cfg, s, Start(SelectDeferred(cfg, s, picks)))
  {
    var c := SelectDeferred(cfg, s, picks);
    var bests, us := SelectTrail(cfg, s, picks);
    assert Ends(c, Start(c));
  }

  lemma ChosenIsTried(cfg: Config, s: State, c: Choice)
    requires Eligible(cfg, s, c) && PendGrows(cfg, s, c.s, s.workers.Values) && RelatedJoin(cfg, s, c.s)
    requires c.s == s.(pend := c.s.pend, deferred := c.s.deferred)
    requires if c.target.None? then c.s.deferred == [] else |c.s.deferred| < |s.deferred|
    requires ByTurns(cfg, s, Start(c))
    ensures DeferredTried(cfg, s, Start(c))
  {
    var t := Start(c);
    assert t.pend == c.s.pend && t.deferred == c.s.deferred && t.synced == s.synced;
    assert PendGrows(cfg, s, t, s.workers.Values) && RelatedJoin(cfg, s, t);
  }

  lemma DeferredOutcome(cfg: Config, s: State, picks: map<nat, nat>)
    requires BucketsOk(s.pend) && BucketsOk(s.deferred)
    ensures var t := Start(SelectDeferred(cfg, s, picks));
            && DeferredTried(cfg, s, t)
            && (SomeStartable(cfg, s) ==> t.nextWorker > s.nextWorker)
            && (s.workers == map[] && s.pend == [] ==> t == s.(deferred := []))
  {
    var c := SelectDeferred(cfg, s, picks);
    SelectedIsEligible(cfg, s, picks);
    SelectedPend(cfg, s, picks);
    ByTurnsIndeed(cfg, s, picks);
    ChosenIsTried(cfg, s, c);
    if SomeStartable(cfg, s) {
      SomeIsFound(cfg, s, picks);
    }
    if s.workers == map[] && s.pend == [] {
      IdleForgetsDeferred(cfg, s, picks);
    }
  }

  // What a report starts.

  /** best is a heaviest of the pending tipsets that share a bucket with a relative of done. */
  ghost predicate LeadsPending(pend: seq<Bucket>, done: Key, best: Key) {
    && (exists b | b in pend :: SameChain(b, done) && best in b)
    && forall b, u | b in pend && SameChain(b, done) && u in b :: Weight(u) <= Weight(best)
  }

  /** It is not remembered, and neither the worker that has left nor any other is on something heavier. */
  ghost predicate GoesNext(cfg: Config, s: State, done: Key, best: Key) {
    && !Remembered(cfg, s.synced, best) && Weight(done) <= Weight(best)
    && forall w | w in s.workers.Values :: Weight(w) <= Weight(best)
  }

  /** The state once the pending buckets related to done are taken out. */
  ghost predicate TakenOut(s: State, done: Key, t: State) {
    t == s.(pend := t.pend) && forall b :: b in t.pend <==> b in s.pend && !SameChain(b, done)
  }

  /** A deferred target is tried, and found if one is startable. */
  ghost predicate FallsBack(cfg: Config, s: State, t: State) {
    DeferredTried(cfg, s, t) && (SomeStartable(cfg, s) ==> t.nextWorker > s.nextWorker)
  }

  lemma NextInLine(cfg: Config, s: State, done: Key)
    requires BucketsOk(s.pend) && Attached(s, done)
    ensures RelatedToAny(s.pend, done) && RelatedTips(s.pend, done) != []
    ensures var best := Heaviest(RelatedTips(s.pend, done));
            && LeadsPending(s.pend, done, best)
            && (GoesNext(cfg, s, done, best)
                <==> Weight(done) <= Weight(best) && !HeavierWorker(s, best) && !RecentlySynced(cfg, s, best))
  {
    AttachedIsRelated(s, done);
    PopRelatedOk(s.pend, done);
    RelatedTipsOk(s.pend, done);
    var best := Heaviest(RelatedTips(s.pend, done));
    RememberedIsRecent(cfg, s, best);
    if w :| w in s.workers.Values && Weight(w) > Weight(best) {
      var id :| id in s.workers && s.workers[id] == w;
      assert HeavierWorker(s, best);
    }
    if HeavierWorker(s, best) {
      var id :| id in s.workers && Weight(s.workers[id]) > Weight(best);
      assert s.workers[id] in s.workers.Values;
    }
  }

  lemma SelectAttached(cfg: Config, s: State, done: Key, popped: State, picks: map<nat, nat>)
    requires BucketsOk(s.pend) && BucketsOk(s.deferred) && Attached(s, done)
    requires popped == s.(pend := Unrelated(s.pend, done)) && BucketsOk(popped.pend)
    ensures var t := Start(SelectSyncTarget(cfg, s, done, picks));
            exists best :: LeadsPending(s.pend, done, best)
              && if GoesNext(cfg, s, done, best) then Started(popped, best, t) else FallsBack(cfg, popped, t)
  {
    NextInLine(cfg, s, done);
    var best := Heaviest(RelatedTips(s.pend, done));
    if GoesNext(cfg, s, done, best) {
      assert SelectSyncTarget(cfg, s, done, picks) == Choice(popped, Some(best));
    } else {
      assert SelectSyncTarget(cfg, s, done, picks) == SelectDeferred(cfg, popped, picks);
      DeferredOutcome(cfg, popped, picks);
    }
  }

  /** Selecting after a worker on done has left: a heaviest related pending tipset goes next if it may, and otherwise a
      deferred target is tried; the related pending buckets are used up either way. */
  lemma SelectOutcome(cfg: Config, s: State, done: Key, picks: map<nat, nat>) returns (popped: State)
    requires BucketsOk(s.pend) && BucketsOk(s.deferred)
    ensures TakenOut(s, done, popped)
    ensures var t := Start(SelectSyncTarget(cfg, s, done, picks));
            if Attached(s, done) then
              exists best :: LeadsPending(s.pend, done, best)
                && if GoesNext(cfg, s, done, best) then Started(popped, best, t) else FallsBack(cfg, popped, t)
            else FallsBack(cfg, popped, t)
  {
    PopRelatedOk(s.pend, done);
    popped := s.(pend := Unrelated(s.pend, done));
    if Attached(s, done) {
      SelectAttached(cfg, s, done, popped, picks);
    } else {
      AttachedIsRelated(s, done);
      DeferredOutcome(cfg, popped, picks);
    }
  }

  /** Before anything is selected: the worker has left, a success is remembered, and all else is as it was. */
  ghost predicate Left(s: State, e: Event, t: State)
    requires e.WorkerDone? && e.id in s.workers
  {
    && t.workers == s.workers - {e.id} && t.synced == s.synced + (if e.ok then [s.workers[e.id]] else [])
    && (t.initialSyncDone <==> s.initialSyncDone || (e.ok && e.fast))
    && t.pend == s.pend && t.deferred == s.deferred && t.heads == s.heads && t.ticking == s.ticking
    && t.nextWorker == s.nextWorker
  }

  /** What is started when a worker reports. */
  lemma ReportOutcome(cfg: Config, s: State, e: Event) returns (popped: State)
    requires Inv(cfg, s) && e.WorkerDone? && Enabled(cfg, s, e)
    ensures var done, told, t := s.workers[e.id], Told(s, e), Step(cfg, s, e);
            && Left(s, e, told) && TakenOut(told, done, popped)
            && if Attached(s, done) then
                 exists best :: LeadsPending(s.pend, done, best)
                   && if GoesNext(cfg, told, done, best) then Started(popped, best, t) else FallsBack(cfg, popped, t)
               else FallsBack(cfg, popped, t)
  {
    var c := ReportChooses(cfg, s, e);
    popped := SelectOutcome(cfg, Told(s, e), s.workers[e.id], e.picks);
  }

  lemma IdleFallsBack(cfg: Config, s: State, t: State)
    requires s.workers == map[] && FallsBack(cfg, s, t)
    ensures t.workers == map[]
  {
  }

  /** After the last worker's report the scheduler is idle, unless a pending tipset goes next. */
  lemma LastReportOutcome(cfg: Config, s: State, e: Event)
    requires Inv(cfg, s) && e.WorkerDone? && Enabled(cfg, s, e) && s.workers.Keys == {e.id}
    ensures var done, t := s.workers[e.id], Step(cfg, s, e);
            if Attached(s, done) then
              exists best :: LeadsPending(s.pend, done, best)
                && t.workers == if GoesNext(cfg, Told(s, e), done, best) then map[s.nextWorker := best] else map[]
            else t.workers == map[]
  {
    var popped := ReportOutcome(cfg, s, e);
    var t := Step(cfg, s, e);
    assert popped.workers == map[];
    if FallsBack(cfg, popped, t) {
      IdleFallsBack(cfg, popped, t);
    }
  }

  // The tick that ends the initial phase.

  /** Workers join on targets that were deferred and are not remembered; none leaves.  Nothing pending is lost either,
      and what becomes pending has converged with a worker or a pending tipset. */
  ghost predicate Joined(cfg: Config, s: State, t: State) {
    && PendGrows(cfg, s, t, t.workers.Values) && s.workers.Values <= t.workers.Values
    && t.heads == s.heads && t.initialSyncDone == s.initialSyncDone
    && s.nextWorker <= t.nextWorker && t.synced == s.synced
    && (forall id | id < s.nextWorker :: id in t.workers <==> id in s.workers)
    && (forall id | id in s.workers && id < s.nextWorker :: t.workers[id] == s.workers[id])
    && forall id | s.nextWorker <= id < t.nextWorker ::
         id in t.workers && t.workers[id] in Tips(s.deferred) && !Remembered(cfg, s.synced, t.workers[id])
  }

  /** Every worker's number has been given out. */
  ghost predicate Numbered(s: State) {
    forall id | id in s.workers :: id < s.nextWorker
  }

  lemma WorkersStay(s: State, t: State)
    requires forall id | id in s.workers :: id in t.workers && t.workers[id] == s.workers[id]
    ensures s.workers.Values <= t.workers.Values
  {
    forall w | w in s.workers.Values
      ensures w in t.workers.Values
    {
      var id :| id in s.workers && s.workers[id] == w;
      assert t.workers[id] == w;
    }
  }

  lemma JoinedTrans(cfg: Config, s: State, m: State, t: State)
    requires Joined(cfg, s, m) && Joined(cfg, m, t) && Tips(m.deferred) <= Tips(s.deferred)
    requires s.deferred == [] ==> m.deferred == []
    ensures Joined(cfg, s, t)
  {
    PendGrowsTrans(cfg, s, m, t, m.workers.Values, t.workers.Values);
    forall id | s.nextWorker <= id < t.nextWorker
      ensures id in t.workers && t.workers[id] in Tips(s.deferred) && !Remembered(cfg, s.synced, t.workers[id])
    {
      if id < m.nextWorker {
        assert id in m.workers;
      }
    }
  }

  lemma MoreTargets(cfg: Config, s: State, t: State, targets: set<Key>, more: set<Key>)
    requires PendGrows(cfg, s, t, targets) && targets <= more
    ensures PendGrows(cfg, s, t, more)
  {
    forall u | u in Tips(t.pend) && u !in Tips(s.pend)
      ensures Converges(cfg, s, u, Tips(t.pend), more)
    {
      assert Converges(cfg, s, u, Tips(t.pend), targets);
    }
  }

  lemma JoinOne(cfg: Config, s: State, c: Choice)
    requires Eligible(cfg, s, c) && c.s == s.(pend := c.s.pend, deferred := c.s.deferred)
    requires Numbered(s) && PendGrows(cfg, s, c.s, s.workers.Values)
    ensures Joined(cfg, s, Start(c)) && Tips(Start(c).deferred) <= Tips(s.deferred) && Numbered(Start(c))
  {
    var t := Start(c);
    WorkersStay(s, t);
    MoreTargets(cfg, s, c.s, s.workers.Values, t.workers.Values);
    assert t.pend == c.s.pend;
  }

  lemma {:induction false} RampJoins(cfg: Config, s: State, picks: map<nat, nat>)
    requires BucketsOk(s.deferred) && Numbered(s)
    ensures var t := HandleInitialSyncDone(cfg, s, picks);
            Joined(cfg, s, t) && (|t.workers| >= cfg.maxWorkers || t.deferred == [])
    decreases |s.deferred|
  {
    if |s.workers| < cfg.maxWorkers {
      var c := SelectDeferred(cfg, s, picks);
      SelectedIsEligible(cfg, s, picks);
      SelectedPend(cfg, s, picks);
      JoinOne(cfg, s, c);
      if c.target.Some? {
        var m := Spawn(c.s, c.target.value);
        RampJoins(cfg, m, picks);
        JoinedTrans(cfg, s, m, HandleInitialSyncDone(cfg, m, picks));
      }
    }
  }

  /** Selections one after the other, each started, while there is room for a worker; the last one finds nothing or
      leaves no room. */
  ghost predicate RampTrail(cfg: Config, s: State, vs: seq<State>, t: State) {
    && |vs| > 0 && vs[0] == s
    && (forall i {:trigger vs[i]} | 0 <= i < |vs| - 1 ::
          |vs[i].workers| < cfg.maxWorkers && vs[i + 1].nextWorker > vs[i].nextWorker && ByTurns(cfg, vs[i], vs[i + 1]))
    && var last := vs[|vs| - 1];
      if |last.workers| >= cfg.maxWorkers then t == last else t.nextWorker == last.nextWorker && ByTurns(cfg, last, t)
  }

  lemma RampTrailStarts(cfg: Config, s: State, m: State, vs: seq<State>, t: State)
    requires |s.workers| < cfg.maxWorkers && m.nextWorker > s.nextWorker && ByTurns(cfg, s, m)
    requires RampTrail(cfg, m, vs, t)
    ensures RampTrail(cfg, s, [s] + vs, t)
  {
    var ws := [s] + vs;
    forall i {:trigger ws[i]} | 0 <= i < |ws| - 1
      ensures |ws[i].workers| < cfg.maxWorkers && ws[i + 1].nextWorker > ws[i].nextWorker
              && ByTurns(cfg, ws[i], ws[i + 1])
    {
      if i > 0 {
        assert ws[i] == vs[i - 1] && ws[i + 1] == vs[i];
      }
    }
  }

  lemma {:induction false} RampIsTrail(cfg: Config, s: State, picks: map<nat, nat>) returns (vs: seq<State>)
    requires BucketsOk(s.deferred)
    ensures RampTrail(cfg, s, vs, HandleInitialSyncDone(cfg, s, picks))
    decreases |s.deferred|
  {
    vs := [s];
    if |s.workers| < cfg.maxWorkers {
      var c := SelectDeferred(cfg, s, picks);
      ByTurnsIndeed(cfg, s, picks);
      if c.target.Some? {
        var m := Start(c);
        vs := RampIsTrail(cfg, m, picks);
        RampTrailStarts(cfg, s, m, vs, HandleInitialSyncDone(cfg, m, picks));
        vs := [s] + vs;
      }
    }
  }

  lemma {:induction false} RampOnlyAdds(cfg: Config, s: State, picks: map<nat, nat>)
    requires BucketsOk(s.deferred)
    ensures HandleInitialSyncDone(cfg, s, picks).nextWorker >= s.nextWorker
    decreases |s.deferred|
  {
    if |s.workers| < cfg.maxWorkers {
      var c := SelectDeferred(cfg, s, picks);
      if c.target.Some? {
        RampOnlyAdds(cfg, Spawn(c.s, c.target.value), picks);
      }
    }
  }

  lemma RampStarts(cfg: Config, s: State, picks: map<nat, nat>)
    requires BucketsOk(s.pend) && BucketsOk(s.deferred) && |s.workers| < cfg.maxWorkers && SomeStartable(cfg, s)
    ensures HandleInitialSyncDone(cfg, s, picks).nextWorker > s.nextWorker
  {
    SomeIsFound(cfg, s, picks);
    var c := SelectDeferred(cfg, s, picks);
    RampOnlyAdds(cfg, Spawn(c.s, c.target.value), picks);
  }

  /** A tick does nothing before the initial sync is done.  After it, it is the last one: deferred targets are started
      until there is no room or none is left. */
  lemma TickOutcome(cfg: Config, s: State, e: Event)
    requires Inv(cfg, s) && e.Tick? && Enabled(cfg, s, e)
    ensures var t := Step(cfg, s, e);
            if !s.initialSyncDone then t == s
            else && !t.ticking && (exists vs :: RampTrail(cfg, s.(ticking := false), vs, t))
                 && Joined(cfg, s, t) && (|t.workers| >= cfg.maxWorkers || t.deferred == [])
                 && (|s.workers| < cfg.maxWorkers && SomeStartable(cfg, s) ==> t.nextWorker > s.nextWorker)
  {
    if s.initialSyncDone {
      var u := s.(ticking := false);
      assert Numbered(u);
      RampJoins(cfg, u, e.picks);
      RampStopsTicking(cfg, u, e.picks);
      var vs := RampIsTrail(cfg, u, e.picks);
      if |s.workers| < cfg.maxWorkers && SomeStartable(cfg, s) {
        var ts, k :| LeadsBucket(s.deferred, ts, k) && Startable(cfg, s, ts);
        assert LeadsBucket(u.deferred, ts, k) && Startable(cfg, u, ts);
        RampStarts(cfg, u, e.picks);
      }
    }
  }

  lemma {:induction false} RampStopsTicking(cfg: Config, s: State, picks: map<nat, nat>)
    requires BucketsOk(s.deferred)
    ensures HandleInitialSyncDone(cfg, s, picks).ticking == s.ticking
    decreases |s.deferred|
  {
    if |s.workers| < cfg.maxWorkers {
      var c := SelectDeferred(cfg, s, picks);
      if c.target.Some? {
        RampStopsTicking(cfg, Spawn(c.s, c.target.value), picks);
      }
    }
  }
}
