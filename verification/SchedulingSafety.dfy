/** What holds in every reachable state of the scheduler. */
module SchedulingSafety {
  import opened Outcomes
  import opened Tipsets
  import opened SyncBuckets
  import opened SyncBuffers
  import opened Scheduling
  import opened Runs

  /** Some tipset of the bucket extends one of the targets. */
  ghost predicate Anchored(b: Bucket, targets: set<Key>) {
    exists i | 0 <= i < |b| :: Parents(b[i]) in targets
  }

  ghost predicate AllAnchored(bs: seq<Bucket>, targets: set<Key>) {
    forall i | 0 <= i < |bs| :: Anchored(bs[i], targets)
  }

  /** The target was, when started, neither one of the last `n` synced nor lighter than one of them. */
  ghost predicate Fresh(sp: Spawned, n: nat) {
    !SyncedIn(LastN(sp.synced, n), sp.target)
  }

  ghost predicate Inv(cfg: Config, s: State) {
    && Ready(s)
    // every running worker is known and will report under the id it was started with
    && s.running == s.workers.Keys
    && |s.spawned| == s.nextWorker
    && (forall id | id in s.workers :: id < s.nextWorker && s.workers[id] == s.spawned[id].target)
    // peer heads are only tracked before the first worker
    && (s.heads.Some? <==> s.nextWorker == 0)
    && (s.nextWorker == 0 ==> s.workers == map[] && s.synced == [])
    // bounds on the number of workers
    && |s.workers| <= cfg.maxWorkers
    && (!s.initialSyncDone ==> |s.workers| <= 1)
    // the pending queue hangs on the workers, and an idle scheduler has nothing queued
    && AllAnchored(s.pend, s.workers.Values)
    && (s.workers == map[] ==> s.pend == [] && s.deferred == [])
    // no worker was started on something recently synced
    && (forall i | 0 <= i < |s.spawned| :: Fresh(s.spawned[i], cfg.recentSize))
  }

  lemma AnchoredMono(b: Bucket, c: Bucket, targets: set<Key>, more: set<Key>)
    requires Anchored(b, targets) && b <= c && targets <= more
    ensures Anchored(c, more)
  {
    var i :| 0 <= i < |b| && Parents(b[i]) in targets;
    assert Parents(c[i]) in more;
  }

  lemma InsertAnchored(bs: seq<Bucket>, ts: Key, targets: set<Key>)
    requires AllAnchored(bs, targets) && (RelatedToAny(bs, ts) || Parents(ts) in targets)
    ensures AllAnchored(Insert(bs, ts), targets)
  {
    if RelatedToAny(bs, ts) {
      var i := FirstRelated(bs, ts);
      AnchoredMono(bs[i], AddTo(bs[i], ts), targets, targets);
    } else {
      assert Parents([ts][0]) in targets;
      assert Anchored([ts], targets);
    }
  }

  lemma DeferredTurnKeeps(cfg: Config, s: State, picks: map<nat, nat>)
    requires BucketsOk(s.pend) && BucketsOk(s.deferred) && s.deferred != [] && AllAnchored(s.pend, s.workers.Values)
    ensures var c := DeferredTurn(cfg, s, picks);
            && BucketsOk(c.s.pend) && AllAnchored(c.s.pend, s.workers.Values)
            && (s.workers == map[] && s.pend == [] ==> c.s.pend == [])
  {
    var (rest, heaviest) := PopDeferred(s);
    if Judge(cfg, rest, heaviest, |s.deferred|, picks).Move? {
      InsertOk(s.pend, heaviest);
      if !RelatedToAny(s.pend, heaviest) {
        assert rest.workers[PickWorker(rest, |s.deferred|, picks)] in s.workers.Values;
      }
      InsertAnchored(s.pend, heaviest, s.workers.Values);
    }
  }

  /** Selecting a deferred target keeps the pending queue anchored, and empty while no worker is active. */
  lemma {:induction false} SelectDeferredKeeps(cfg: Config, s: State, picks: map<nat, nat>)
    requires BucketsOk(s.pend) && BucketsOk(s.deferred) && AllAnchored(s.pend, s.workers.Values)
    ensures var c := SelectDeferred(cfg, s, picks);
            && BucketsOk(c.s.pend) && AllAnchored(c.s.pend, s.workers.Values)
            && (s.workers == map[] && s.pend == [] ==> c.s.pend == [])
    decreases |s.deferred|
  {
    if s.deferred != [] {
      DeferredTurnKeeps(cfg, s, picks);
      SelectDeferredKeeps(cfg, DeferredTurn(cfg, s, picks).s, picks);
    }
  }

  /** Contrary to what its documentation says, a scheduler whose last worker has gone starts none of the
      deferred targets: it forgets them all. */
  lemma {:induction false} IdleForgetsDeferred(cfg: Config, s: State, picks: map<nat, nat>)
    requires BucketsOk(s.deferred) && s.workers == map[] && s.pend == []
    ensures SelectDeferred(cfg, s, picks) == Choice(s.(deferred := []), None)
    decreases |s.deferred|
  {
    if s.deferred != [] {
      var (rest, heaviest) := PopDeferred(s);
      assert Judge(cfg, rest, heaviest, |s.deferred|, picks) == Drop;
      IdleForgetsDeferred(cfg, rest, picks);
    }
  }

  /** The best deferred target, if nothing speaks against it, is started exactly when some worker is active. */
  lemma DeferredStartsIffBusy(cfg: Config, s: State, picks: map<nat, nat>)
    requires BucketsOk(s.deferred) && s.deferred != [] && (s.workers == map[] ==> s.pend == [])
    requires var best := PopDeferred(s).1;
             && !RecentlySynced(cfg, s, best) && !RelatedToAny(s.pend, best)
             && forall id | id in s.workers :: !Touches(s.workers[id], best) && Weight(s.workers[id]) <= Weight(best)
    ensures SelectDeferred(cfg, s, picks).target == Some(PopDeferred(s).1) <==> s.workers != map[]
  {
    if s.workers == map[] {
      IdleForgetsDeferred(cfg, s, picks);
    } else {
      assert PickWorker(PopDeferred(s).0, |s.deferred|, picks) in s.workers;
      assert DeferredTurn(cfg, s, picks).target == Some(PopDeferred(s).1);
    }
  }

  lemma SpawnKeeps(cfg: Config, s: State, target: Key)
    requires BucketsOk(s.pend) && BucketsOk(s.deferred)
    requires s.running == s.workers.Keys && |s.spawned| == s.nextWorker
    requires forall id | id in s.workers :: id < s.nextWorker && s.workers[id] == s.spawned[id].target
    requires s.heads.None?
    requires |s.workers| < cfg.maxWorkers && (!s.initialSyncDone ==> s.workers == map[])
    requires AllAnchored(s.pend, s.workers.Values)
    requires forall i | 0 <= i < |s.spawned| :: Fresh(s.spawned[i], cfg.recentSize)
    requires !RecentlySynced(cfg, s, target)
    ensures Inv(cfg, Spawn(s, target))
    ensures |Spawn(s, target).workers| == |s.workers| + 1
  {
    var t := Spawn(s, target);
    assert s.nextWorker !in s.workers;
    assert t.workers.Keys == s.workers.Keys + {s.nextWorker};
    assert s.workers.Values <= t.workers.Values by {
      forall v | v in s.workers.Values
        ensures v in t.workers.Values
      {
        var id :| id in s.workers && s.workers[id] == v;
        assert t.workers[id] == v;
      }
    }
    forall i | 0 <= i < |t.pend|
      ensures Anchored(t.pend[i], t.workers.Values)
    {
      AnchoredMono(s.pend[i], t.pend[i], s.workers.Values, t.workers.Values);
    }
    assert t.workers[s.nextWorker] == target;
    assert Fresh(t.spawned[|s.spawned|], cfg.recentSize);
  }

  /** The target chosen first is a heaviest one among all heads tracked, however they fall into buckets. */
  lemma InitialIsHeaviest(sorted: seq<Key>)
    requires sorted != []
    ensures var t := HeaviestOf(InsertAll(sorted));
            t.Some? && t.value in sorted && forall ts | ts in sorted :: Weight(ts) <= Weight(t.value)
  {
    assert sorted[0] in Tips(InsertAll(sorted));
  }

  lemma BootstrapKeeps(cfg: Config, s: State, target: Key)
    requires cfg.maxWorkers >= 1 && Inv(cfg, s) && s.nextWorker == 0
    ensures Inv(cfg, Spawn(s.(heads := None), target))
  {
    SpawnKeeps(cfg, s.(heads := None), target);
  }

  lemma PeerHeadKeeps(cfg: Config, s: State, e: Event)
    requires cfg.maxWorkers >= 1 && e.PeerHead? && Inv(cfg, s) && Enabled(cfg, s, e)
    ensures Inv(cfg, HandlePeerHead(cfg, s, e))
  {
    if s.nextWorker > 0 {
      AddSyncTargetKeeps(cfg, s, e.ts, e.hit);
    } else if |s.heads.value[e.peer := e.ts]| >= cfg.bootstrapPeers {
      BootstrapKeeps(cfg, s, HeaviestOf(InsertAll(e.sorted)).value);
    }
  }

  lemma PendingKeeps(cfg: Config, s: State, ts: Key)
    requires Inv(cfg, s) && s.workers != map[] && (RelatedToAny(s.pend, ts) || Parents(ts) in s.workers.Values)
    ensures Inv(cfg, s.(pend := Insert(s.pend, ts)))
  {
    InsertOk(s.pend, ts);
    InsertAnchored(s.pend, ts, s.workers.Values);
  }

  lemma DeferringKeeps(cfg: Config, s: State, ts: Key)
    requires Inv(cfg, s) && s.workers != map[]
    ensures Inv(cfg, s.(deferred := Insert(s.deferred, ts)))
  {
    InsertOk(s.deferred, ts);
  }

  lemma AddSyncTargetKeeps(cfg: Config, s: State, ts: Key, hit: Option<nat>)
    requires cfg.maxWorkers >= 1 && Inv(cfg, s) && s.nextWorker > 0 && HitOk(s, ts, hit)
    ensures Inv(cfg, Start(AddSyncTarget(cfg, s, ts, hit)))
  {
    var c := AddSyncTarget(cfg, s, ts, hit);
    if c.target.Some? {
      SpawnKeeps(cfg, s, ts);
    } else if c.s.pend != s.pend {
      if hit.Some? {
        assert s.workers[hit.value] in s.workers.Values;
      }
      PendingKeeps(cfg, s, ts);
    } else if c.s.deferred != s.deferred {
      DeferringKeeps(cfg, s, ts);
    }
  }

  /** When a worker leaves, the pending buckets it does not touch hang on the others. */
  lemma StillAnchored(s: State, id: nat, bs: seq<Bucket>)
    requires id in s.workers && AllAnchored(s.pend, s.workers.Values)
    requires forall b | b in bs :: b in s.pend && !SameChain(b, s.workers[id])
    ensures AllAnchored(bs, (s.workers - {id}).Values)
  {
    var rest := s.workers - {id};
    forall i | 0 <= i < |bs|
      ensures Anchored(bs[i], rest.Values)
    {
      var b := bs[i];
      assert b in s.pend;
      var j :| 0 <= j < |b| && Parents(b[j]) in s.workers.Values;
      var w :| w in s.workers && s.workers[w] == Parents(b[j]);
      assert !Related(s.workers[id], b[j]);
      assert w != id && rest[w] == Parents(b[j]);
    }
  }

  lemma PopKeeps(cfg: Config, s: State, id: nat)
    requires Inv(cfg, s) && id in s.workers
    ensures var left := Unrelated(s.pend, s.workers[id]);
            var rest := s.workers - {id};
            BucketsOk(left) && AllAnchored(left, rest.Values) && (rest == map[] ==> left == [])
  {
    var left := Unrelated(s.pend, s.workers[id]);
    PopRelatedOk(s.pend, s.workers[id]);
    StillAnchored(s, id, left);
    assert left != [] ==> Anchored(left[0], (s.workers - {id}).Values);
  }

  /** Selecting the next target after a worker has left. */
  lemma SelectKeeps(cfg: Config, s: State, id: nat, t: State, picks: map<nat, nat>)
    requires Inv(cfg, s) && id in s.workers
    requires t == s.(workers := s.workers - {id}, running := s.running - {id},
                     synced := t.synced, initialSyncDone := t.initialSyncDone)
    ensures var c := SelectSyncTarget(cfg, t, s.workers[id], picks);
            && BucketsOk(c.s.pend) && BucketsOk(c.s.deferred) && AllAnchored(c.s.pend, t.workers.Values)
            && (c.target.None? && t.workers == map[] ==> c.s.pend == [] && c.s.deferred == [])
            && (c.target.Some? ==> !RecentlySynced(cfg, t, c.target.value))
  {
    PopKeeps(cfg, s, id);
    SelectDeferredKeeps(cfg, t.(pend := Unrelated(s.pend, s.workers[id])), picks);
  }

  lemma WorkerDoneKeeps(cfg: Config, s: State, e: Event)
    requires e.WorkerDone? && Inv(cfg, s) && Enabled(cfg, s, e)
    ensures Inv(cfg, HandleWorkerStatus(cfg, s, e))
  {
    var told := Told(s, e);
    SelectKeeps(cfg, s, e.id, told, e.picks);
    assert told.workers.Keys == s.workers.Keys - {e.id};
    assert |told.workers.Keys| == |s.workers.Keys| - 1;
    var c := SelectSyncTarget(cfg, told, s.workers[e.id], e.picks);
    if c.target.Some? {
      SpawnKeeps(cfg, c.s, c.target.value);
    }
  }

  lemma {:induction false} InitialSyncDoneKeeps(cfg: Config, s: State, picks: map<nat, nat>)
    requires Inv(cfg, s) && s.initialSyncDone
    ensures Inv(cfg, HandleInitialSyncDone(cfg, s, picks))
    decreases |s.deferred|
  {
    if |s.workers| < cfg.maxWorkers {
      SelectDeferredKeeps(cfg, s, picks);
      var c := SelectDeferred(cfg, s, picks);
      if c.target.Some? {
        SpawnKeeps(cfg, c.s, c.target.value);
        InitialSyncDoneKeeps(cfg, Spawn(c.s, c.target.value), picks);
      }
    }
  }

  /** Every event keeps the invariant. */
  lemma StepKeeps(cfg: Config, s: State, e: Event)
    requires cfg.maxWorkers >= 1 && Inv(cfg, s) && Enabled(cfg, s, e)
    ensures Inv(cfg, Step(cfg, s, e))
  {
    match e
    case PeerHead(_, _, _, _) => PeerHeadKeeps(cfg, s, e);
    case WorkerDone(_, _, _, _) => WorkerDoneKeeps(cfg, s, e);
    case Tick(picks) =>
      if s.initialSyncDone {
        InitialSyncDoneKeeps(cfg, s.(ticking := false), picks);
      }
  }

  ghost predicate Next(cfg: Config, s: State, e: Event, t: State) {
    Ready(s) && Enabled(cfg, s, e) && t == Step(cfg, s, e)
  }

  ghost function NextOf(cfg: Config): (State, Event, State) -> bool {
    (s, e, t) => Next(cfg, s, e, t)
  }

  /** A run of the scheduler, as long as no handler crashes. */
  ghost predicate Run(cfg: Config, es: seq<Event>, ss: seq<State>) {
    RunOf(NextOf(cfg), INITIAL, es, ss)
  }

  lemma RunNext(cfg: Config, es: seq<Event>, ss: seq<State>, i: nat)
    requires Run(cfg, es, ss) && i < |es|
    ensures |ss| == |es| + 1 && Next(cfg, ss[i], es[i], ss[i + 1])
  {
    RunStep(NextOf(cfg), INITIAL, es, ss, i);
  }

  /** Every state of every run satisfies the invariant; in particular it is ready for any further event. */
  lemma {:induction false} RunsAreSafe(cfg: Config, es: seq<Event>, ss: seq<State>, i: nat)
    requires cfg.maxWorkers >= 1 && Run(cfg, es, ss) && i < |ss|
    ensures Inv(cfg, ss[i])
  {
    if i > 0 {
      RunsAreSafe(cfg, es, ss, i - 1);
      RunNext(cfg, es, ss, i - 1);
      StepKeeps(cfg, ss[i - 1], es[i - 1]);
    }
  }

  /** The target whose success an event reports, if any. */
  function Success(s: State, e: Event): seq<Key> {
    if e.WorkerDone? && e.ok && e.id < |s.spawned| then [s.spawned[e.id].target] else []
  }

  /** A step forgets no start and adds a success exactly when one is reported. */
  predicate Remembers(s: State, e: Event, t: State) {
    s.spawned <= t.spawned && t.synced == s.synced + Success(s, e)
  }

  lemma NextRemembers(cfg: Config, s: State, e: Event, t: State)
    requires Inv(cfg, s) && Next(cfg, s, e, t)
    ensures Remembers(s, e, t)
  {
  }

  lemma RunRemembers(cfg: Config, es: seq<Event>, ss: seq<State>)
    requires cfg.maxWorkers >= 1 && Run(cfg, es, ss)
    ensures RunOf(Remembers, INITIAL, es, ss)
  {
    forall i | 0 <= i < |es|
      ensures Remembers(ss[i], es[i], ss[i + 1])
    {
      RunsAreSafe(cfg, es, ss, i);
      RunNext(cfg, es, ss, i);
      NextRemembers(cfg, ss[i], es[i], ss[i + 1]);
    }
  }

  /** The targets of the workers that reported success during the first n events, in order. */
  ghost function Reported(es: seq<Event>, ss: seq<State>, n: nat): seq<Key>
    requires n <= |es| < |ss|
  {
    if n == 0 then [] else Reported(es, ss, n - 1) + Success(ss[n - 1], es[n - 1])
  }

  /** The history the ring is about is the list of successful reports, and starts of workers stay on record. */
  lemma HistoriesAreReal(cfg: Config, es: seq<Event>, ss: seq<State>, n: nat, m: nat)
    requires cfg.maxWorkers >= 1 && Run(cfg, es, ss) && m <= n < |ss|
    ensures ss[n].synced == Reported(es, ss, n)
    ensures ss[m].spawned <= ss[n].spawned
  {
    RunRemembers(cfg, es, ss);
    HistoriesGrow(es, ss, n, m);
  }

  lemma {:induction false} HistoriesGrow(es: seq<Event>, ss: seq<State>, n: nat, m: nat)
    requires RunOf(Remembers, INITIAL, es, ss) && m <= n < |ss|
    ensures ss[n].synced == Reported(es, ss, n)
    ensures ss[m].spawned <= ss[n].spawned
    decreases n
  {
    if n > 0 {
      HistoriesGrow(es, ss, n - 1, if m < n then m else 0);
      RunStep(Remembers, INITIAL, es, ss, n - 1);
    }
  }
}
