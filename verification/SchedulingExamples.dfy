/** Runs of the scheduler that show where its documentation promises more than it does. */
module SchedulingExamples {
  import opened Outcomes
  import opened Tipsets
  import opened SyncBuckets
  import opened Scheduling
  import opened SchedulingSafety
  import opened Runs

  /** A worker syncs a; meanwhile a heavier, unrelated head b arrives, which nothing speaks against; the worker
      reports success. */
  function LosingRun(a: Key, b: Key, fast: bool, picks: map<nat, nat>): seq<Event> {
    [PeerHead(0, a, None, [a]), PeerHead(1, b, None, []), WorkerDone(0, true, fast, picks)]
  }

  function AfterFirstHead(a: Key): State {
    Spawn(INITIAL.(heads := None), a)
  }

  lemma FirstHeadStarts(cfg: Config, a: Key)
    requires cfg.maxWorkers >= 1 && cfg.bootstrapPeers <= 1
    ensures Next(cfg, INITIAL, PeerHead(0, a, None, [a]), AfterFirstHead(a))
  {
    var heads: map<Peer, Key> := map[0 := a];
    assert heads[0] == a && |heads| == 1;
    assert SortedHeads(heads, [a]);
    InitialIsHeaviest([a]);
  }

  lemma SecondHeadIsDeferred(cfg: Config, a: Key, b: Key)
    requires a != b && Parents(b) != a && Weight(b) > Weight(a)
    ensures var s := AfterFirstHead(a); Next(cfg, s, PeerHead(1, b, None, []), s.(deferred := [[b]]))
  {
    var s := AfterFirstHead(a);
    assert s.workers == map[0 := a];
    assert Insert([], b) == [[b]];
  }

  /** The scheduler once the only worker has reported. */
  function AfterReport(a: Key, fast: bool): State {
    AfterFirstHead(a).(workers := map[], running := {}, synced := [a], initialSyncDone := fast)
  }

  lemma ReportIsTold(a: Key, b: Key, fast: bool, picks: map<nat, nat>)
    ensures var s := AfterFirstHead(a).(deferred := [[b]]);
            0 in s.workers && Told(s, WorkerDone(0, true, fast, picks)) == AfterReport(a, fast).(deferred := [[b]])
  {
    var s := AfterFirstHead(a).(deferred := [[b]]);
    assert s.workers == map[0 := a] && s.workers - {0} == map[];
    assert s.running - {0} == {};
  }

  lemma NothingIsSelected(cfg: Config, a: Key, b: Key, fast: bool, picks: map<nat, nat>)
    ensures var s := AfterReport(a, fast).(deferred := [[b]]);
            BucketsOk(s.pend) && BucketsOk(s.deferred)
            && SelectSyncTarget(cfg, s, a, picks) == Choice(AfterReport(a, fast), None)
  {
    var s := AfterReport(a, fast).(deferred := [[b]]);
    assert BucketOk([b]);
    IdleForgetsDeferred(cfg, s, picks);
    assert Unrelated([], a) == [] && s.(pend := []) == s;
  }

  lemma ReportDropsDeferred(cfg: Config, a: Key, b: Key, fast: bool, picks: map<nat, nat>)
    ensures Next(cfg, AfterFirstHead(a).(deferred := [[b]]), WorkerDone(0, true, fast, picks), AfterReport(a, fast))
  {
    ReportIsTold(a, b, fast, picks);
    NothingIsSelected(cfg, a, b, fast, picks);
  }

  lemma ThreeSteps<S, E>(next: (S, E, S) -> bool, es: seq<E>, ss: seq<S>)
    requires |es| == 3 && |ss| == 4
    requires next(ss[0], es[0], ss[1]) && next(ss[1], es[1], ss[2]) && next(ss[2], es[2], ss[3])
    ensures RunOf(next, ss[0], es, ss)
  {
  }

  /** In every such run b waits in the deferred queue until the worker is freed, and then is gone: not synced, not
      started, not queued. */
  lemma DeferredTargetIsLost(cfg: Config, a: Key, b: Key, fast: bool, picks: map<nat, nat>) returns (ss: seq<State>)
    requires cfg.maxWorkers >= 1 && cfg.bootstrapPeers <= 1
    requires a != b && Parents(b) != a && Weight(b) > Weight(a)
    ensures Run(cfg, LosingRun(a, b, fast, picks), ss)
    ensures ss[2].deferred == [[b]] && ss[2].workers == map[0 := a]
    ensures ss[3].deferred == [] && ss[3].pend == [] && ss[3].workers == map[]
    ensures ss[3].spawned == [Spawned(a, [])] && !RecentlySynced(cfg, ss[3], b)
  {
    ss := [INITIAL, AfterFirstHead(a), AfterFirstHead(a).(deferred := [[b]]), AfterReport(a, fast)];
    assert Run(cfg, LosingRun(a, b, fast, picks), ss) by {
      FirstHeadStarts(cfg, a);
      SecondHeadIsDeferred(cfg, a, b);
      ReportDropsDeferred(cfg, a, b, fast, picks);
      ThreeSteps(NextOf(cfg), LosingRun(a, b, fast, picks), ss);
    }
  }
}
