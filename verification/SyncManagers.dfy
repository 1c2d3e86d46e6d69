/** The sync manager itself: a mutable object whose handlers do what the state machine says. */
module SyncManagers {
  import opened Outcomes
  import opened Tipsets
  import opened SyncBuckets
  import opened SyncQueues
  import opened SyncBuffers
  import opened Scheduling
  import opened SchedulingSafety

  /** p records at least the choices in q. */
  ghost predicate Extends(p: map<nat, nat>, q: map<nat, nat>) {
    q.Keys <= p.Keys && forall k | k in q :: p[k] == q[k]
  }

  /** All choices recorded were made while more than n buckets were left. */
  ghost predicate Above(picks: map<nat, nat>, n: nat) {
    forall k | k in picks :: k > n
  }

  /** Under any choices that include `picks`, selecting from s ends in t with this target. */
  ghost predicate Selects(cfg: Config, s: State, picks: map<nat, nat>, t: State, target: Option<Key>)
    requires BucketsOk(s.deferred)
  {
    forall p | Extends(p, picks) :: SelectDeferred(cfg, s, p) == Choice(t, target)
  }

  /** Under any choices that include `picks`, selecting from s comes down to selecting from t. */
  ghost predicate GoesOn(cfg: Config, s: State, picks: map<nat, nat>, t: State)
    requires BucketsOk(s.deferred) && BucketsOk(t.deferred)
  {
    forall p | Extends(p, picks) :: SelectDeferred(cfg, s, p) == SelectDeferred(cfg, t, p)
  }

  lemma TurnGoesOn(cfg: Config, s: State, t: State, earlier: map<nat, nat>, u: State, target: Option<Key>,
                   picks: map<nat, nat>)
    requires BucketsOk(s.deferred) && BucketsOk(t.deferred) && BucketsOk(u.deferred) && t.deferred != []
    requires GoesOn(cfg, s, earlier, t) && Extends(picks, earlier)
    requires forall p | Extends(p, picks) :: Choice(u, target) == DeferredTurn(cfg, t, p)
    ensures if target.Some? then Selects(cfg, s, picks, u, target) else GoesOn(cfg, s, picks, u)
  {
    forall p | Extends(p, picks)
      ensures SelectDeferred(cfg, s, p) == if target.Some? then Choice(u, target) else SelectDeferred(cfg, u, p)
    {
      assert Extends(p, earlier);
      assert DeferredTurn(cfg, t, p) == Choice(u, target);
    }
  }

  ghost predicate RampsOn(cfg: Config, s: State, picks: map<nat, nat>, t: State)
    requires BucketsOk(s.deferred) && BucketsOk(t.deferred)
  {
    forall p | Extends(p, picks) :: HandleInitialSyncDone(cfg, s, p) == HandleInitialSyncDone(cfg, t, p)
  }

  lemma RampTurn(cfg: Config, s: State, t: State, earlier: map<nat, nat>, u: State, target: Option<Key>,
                 picks: map<nat, nat>)
    requires BucketsOk(s.deferred) && BucketsOk(t.deferred) && BucketsOk(u.deferred) && |t.workers| < cfg.maxWorkers
    requires RampsOn(cfg, s, earlier, t) && Extends(picks, earlier)
    requires Selects(cfg, t, picks, u, target)
    ensures target.Some? ==> RampsOn(cfg, s, picks, Spawn(u, target.value)) && |u.deferred| < |t.deferred|
    ensures target.None? ==> HandleInitialSyncDone(cfg, s, picks) == u
  {
    assert Extends(picks, picks);
    assert SelectDeferred(cfg, t, picks) == Choice(u, target);
    forall p | Extends(p, picks)
      ensures HandleInitialSyncDone(cfg, s, p)
           == if target.Some? then HandleInitialSyncDone(cfg, Spawn(u, target.value), p) else u
    {
      assert Extends(p, earlier);
      assert SelectDeferred(cfg, t, p) == Choice(u, target);
    }
  }

  lemma {:induction false} LowestHead(heads: map<Peer, Key>, rest: set<Peer>) returns (p: Peer)
    requires rest != {} && rest <= heads.Keys
    ensures p in rest && forall q | q in rest :: Height(heads[p]) <= Height(heads[q])
    decreases rest
  {
    p :| p in rest;
    if rest != {p} {
      var r := LowestHead(heads, rest - {p});
      if Height(heads[r]) < Height(heads[p]) {
        p := r;
      }
    }
  }

  /** The peer heads, lowest first. */
  method SortByHeight(heads: map<Peer, Key>) returns (list: seq<Key>)
    ensures SortedHeads(heads, list)
    ensures forall ts :: ts in list <==> exists p | p in heads :: heads[p] == ts
    ensures forall i, j | 0 <= i < j < |list| :: Height(list[i]) <= Height(list[j])
  {
    list := [];
    var rest := heads.Keys;
    while rest != {}
      invariant rest <= heads.Keys
      invariant forall p | p in heads :: p in rest || heads[p] in list
      invariant forall ts | ts in list :: ts in heads.Values
      invariant forall i, j | 0 <= i < j < |list| :: Height(list[i]) <= Height(list[j])
      invariant forall i, p | 0 <= i < |list| && p in rest :: Height(list[i]) <= Height(heads[p])
    {
      ghost var lowest := LowestHead(heads, rest);
      var p :| p in rest && forall q | q in rest :: Height(heads[p]) <= Height(heads[q]);
      rest := rest - {p};
      list := list + [heads[p]];
    }
  }

  class SyncManager {
    const cfg: Config
    var nextWorker: nat
    const pend: SyncBucketSet
    const deferred: SyncBucketSet
    var heads: Option<map<Peer, Key>>
    const recent: SyncBuffer
    var initialSyncDone: bool
    var state: map<nat, Key>
    var ticking: bool
    ghost var running: set<nat>
    ghost var spawned: seq<Spawned>

    ghost predicate Valid()
      reads this, pend, deferred, recent, recent.buf
    {
      && pend != deferred
      && recent.Valid() && recent.buf.Length == cfg.recentSize
      && BucketsOk(pend.buckets) && BucketsOk(deferred.buckets)
    }

    ghost function Abs(): State
      reads this, pend, deferred, recent
    {
      State(nextWorker, state, pend.buckets, deferred.buckets, heads, initialSyncDone, ticking, running,
            recent.pushed, spawned)
    }

    constructor (cfg: Config)
      requires cfg.maxWorkers >= 1 && cfg.recentSize >= 1
      ensures Valid() && this.cfg == cfg && Abs() == INITIAL && Inv(cfg, Abs())
      ensures fresh(pend) && fresh(deferred) && fresh(recent) && fresh(recent.buf)
    {
      this.cfg := cfg;
      nextWorker := 0;
      pend := new SyncBucketSet();
      deferred := new SyncBucketSet();
      heads := Some(map[]);
      recent := new SyncBuffer(cfg.recentSize);
      initialSyncDone := false;
      state := map[];
      ticking := true;
      running := {};
      spawned := [];
    }

    method SpawnWorker(target: Key)
      requires Valid()
      modifies this
      ensures Valid() && Abs() == Spawn(old(Abs()), target)
    {
      var id := nextWorker;
      nextWorker := nextWorker + 1;
      state := state[id := target];
      running := running + {id};
      spawned := spawned + [Spawned(target, recent.pushed)];
    }

    /** The worker a new head is found to touch first, if any. */
    method FindTouched(ts: Key) returns (hit: Option<nat>)
      ensures HitOk(Abs(), ts, hit)
    {
      var rest := state.Keys;
      while rest != {}
        invariant rest <= state.Keys
        invariant forall id | id in state && id !in rest :: !Touches(state[id], ts)
      {
        var id :| id in rest;
        rest := rest - {id};
        if Touches(state[id], ts) {
          return Some(id);
        }
      }
      return None;
    }

    method AnyHeavier(ts: Key) returns (r: bool)
      ensures r <==> HeavierWorker(Abs(), ts)
    {
      var rest := state.Keys;
      while rest != {}
        invariant rest <= state.Keys
        invariant forall id | id in state && id !in rest :: Weight(state[id]) <= Weight(ts)
      {
        var id :| id in rest;
        rest := rest - {id};
        if Weight(state[id]) > Weight(ts) {
          return true;
        }
      }
      return false;
    }

    method Outweighed(ts: Key) returns (r: bool)
      requires Valid()
      ensures r <==> HeavierWorker(Abs(), ts) || HeavierPending(Abs(), ts)
    {
      r := AnyHeavier(ts);
      if !r {
        var pendHeaviest := pend.HeaviestTip();
        r := pendHeaviest.Some? && Weight(pendHeaviest.value) > Weight(ts);
      }
    }

    /** What addSyncTarget does with a head that touches no worker. */
    method AddUntouched(ts: Key) returns (target: Option<Key>)
      requires Valid() && HitOk(Abs(), ts, None) && !RecentlySynced(cfg, Abs(), ts) && state != map[]
      modifies pend, deferred
      ensures Valid()
      ensures Choice(Abs(), target) == AddSyncTarget(cfg, old(Abs()), ts, None)
    {
      var related := pend.RelatedTo(ts);
      if related {
        pend.Add(ts);
        return None;
      }
      var outweighed := Outweighed(ts);
      if outweighed {
        return None;
      }
      if !initialSyncDone || |state| >= cfg.maxWorkers {
        deferred.Add(ts);
        return None;
      }
      return Some(ts);
    }

    method AddTarget(ts: Key) returns (target: Option<Key>, ghost hit: Option<nat>)
      requires Valid()
      modifies pend, deferred
      ensures Valid() && HitOk(old(Abs()), ts, hit)
      ensures Choice(Abs(), target) == AddSyncTarget(cfg, old(Abs()), ts, hit)
    {
      var touched := FindTouched(ts);
      hit := touched;
      var isRecent := recent.Synced(ts);
      if isRecent {
        return None, hit;
      }
      if state == map[] {
        return Some(ts), hit;
      }
      if touched.Some? {
        if ts != state[touched.value] {
          pend.Add(ts);
        }
        return None, hit;
      }
      target := AddUntouched(ts);
    }
  
    /** Decide about the heaviest tipset of a deferred bucket popped when n were left.  The range over the
        workers returns or goes on with the next bucket in its first turn, so one arbitrary worker decides. */
    method JudgeDeferred(heaviest: Key, ghost n: nat, ghost recorded: map<nat, nat>)
      returns (v: Verdict, ghost picks: map<nat, nat>)
      requires Valid() && n !in recorded
      ensures Extends(picks, recorded) && picks.Keys <= recorded.Keys + {n}
      ensures forall p | Extends(p, picks) :: v == Judge(cfg, Abs(), heaviest, n, p)
    {
      picks := recorded;
      var isRecent := recent.Synced(heaviest);
      if isRecent {
        return Drop, picks;
      }
      var related := pend.RelatedTo(heaviest);
      if related {
        return Move, picks;
      }
      if state == map[] {
        return Drop, picks;
      }
      var id :| id in state;
      picks := picks[n := id];
      assert forall p | Extends(p, picks) :: p[n] == id;
      v := if state[id] == heaviest || Weight(state[id]) > Weight(heaviest) then Drop
           else if Parents(heaviest) == state[id] then Move
           else Take;
    }

    /** One turn of the loop over the deferred queue. */
    method TakeDeferred(ghost recorded: map<nat, nat>) returns (target: Option<Key>, ghost picks: map<nat, nat>)
      requires Valid() && deferred.buckets != [] && Above(recorded, |deferred.buckets|)
      modifies pend, deferred
      ensures Valid() && |deferred.buckets| == |old(deferred.buckets)| - 1
      ensures Extends(picks, recorded) && Above(picks, |deferred.buckets|)
      ensures forall p | Extends(p, picks) :: Choice(Abs(), target) == DeferredTurn(cfg, old(Abs()), p)
    {
      ghost var n := |deferred.buckets|;
      var bucket := deferred.Pop();
      assert PopDeferred(old(Abs())) == (Abs(), Heaviest(bucket));
      var heaviest := HeaviestTipSet(bucket);
      var v;
      v, picks := JudgeDeferred(heaviest.value, n, recorded);
      if v.Move? {
        pend.Add(heaviest.value);
      }
      target := if v.Take? then heaviest else None;
    }

    method SelectDeferredTarget(ghost recorded: map<nat, nat>) returns (target: Option<Key>, ghost picks: map<nat, nat>)
      requires Valid() && Above(recorded, |deferred.buckets|)
      modifies pend, deferred
      ensures Valid() && Extends(picks, recorded) && Above(picks, |deferred.buckets|)
      ensures Selects(cfg, old(Abs()), picks, Abs(), target)
    {
      picks := recorded;
      target := None;
      while deferred.buckets != []
        invariant Valid() && Extends(picks, recorded) && target.None?
        invariant Above(picks, |deferred.buckets|)
        invariant GoesOn(cfg, old(Abs()), picks, Abs())
        decreases |deferred.buckets|
      {
        ghost var before, earlier := Abs(), picks;
        target, picks := TakeDeferred(picks);
        TurnGoesOn(cfg, old(Abs()), before, earlier, Abs(), target, picks);
        if target.Some? {
          return;
        }
      }
    }
  
    /** selectSyncTarget, after the worker on `done` has left. */
    method SelectTarget(done: Key) returns (target: Option<Key>, ghost picks: map<nat, nat>)
      requires Valid()
      modifies pend, deferred
      ensures Valid() && Choice(Abs(), target) == SelectSyncTarget(cfg, old(Abs()), done, picks)
    {
      picks := map[];
      PopRelatedOk(pend.buckets, done);
      ghost var before := Abs();
      var related := pend.PopRelated(done);
      ghost var popped := Abs();
      assert popped == before.(pend := Unrelated(before.pend, done));
      if related.Some? {
        var heaviest := Heaviest(related.value);
        var heavier := AnyHeavier(heaviest);
        var isRecent := recent.Synced(heaviest);
        if !(Weight(done) > Weight(heaviest) || heavier || isRecent) {
          return Some(heaviest), picks;
        }
      }
      target, picks := SelectDeferredTarget(map[]);
      assert Extends(picks, picks);
      assert SelectDeferred(cfg, popped, picks) == Choice(Abs(), target);
    }

    method HandleWorkerReport(id: nat, ok: bool, fast: bool) returns (ghost e: Event)
      requires Valid() && Inv(cfg, Abs()) && id in running
      modifies this, pend, deferred, recent, recent.buf
      ensures Valid() && Enabled(cfg, old(Abs()), e) && Abs() == Step(cfg, old(Abs()), e)
      ensures e.WorkerDone? && e.id == id && e.ok == ok && e.fast == fast
    {
      ghost var before := Abs();
      var done := state[id];
      state := state - {id};
      running := running - {id};
      if ok {
        recent.Push(done);
        if !initialSyncDone && fast {
          initialSyncDone := true;
        }
      }
      assert Abs() == Told(before, WorkerDone(id, ok, fast, map[]));
      var target;
      ghost var picks;
      target, picks := SelectTarget(done);
      e := WorkerDone(id, ok, fast, picks);
      if target.Some? {
        SpawnWorker(target.value);
      }
    }

    method HandleTick() returns (ghost e: Event)
      requires Valid() && Inv(cfg, Abs()) && ticking
      modifies this, pend, deferred
      ensures Valid() && Enabled(cfg, old(Abs()), e) && Abs() == Step(cfg, old(Abs()), e)
      ensures e.Tick?
    {
      ghost var picks: map<nat, nat> := map[];
      if initialSyncDone {
        ticking := false;
        picks := RampUp();
      }
      e := Tick(picks);
    }

    /** handleInitialSyncDone: start workers on deferred targets while there is room. */
    method RampUp() returns (ghost picks: map<nat, nat>)
      requires Valid()
      modifies this, pend, deferred
      ensures Valid() && Abs() == HandleInitialSyncDone(cfg, old(Abs()), picks)
    {
      picks := map[];
      while |state| < cfg.maxWorkers
        invariant Valid() && Above(picks, |deferred.buckets|)
        invariant RampsOn(cfg, old(Abs()), picks, Abs())
        decreases |deferred.buckets|
      {
        ghost var before, earlier := Abs(), picks;
        var target;
        target, picks := SelectDeferredTarget(picks);
        RampTurn(cfg, old(Abs()), before, earlier, Abs(), target, picks);
        if target.None? {
          break;
        }
        SpawnWorker(target.value);
      }
      assert Extends(picks, picks);
    }
  
    /** selectInitialSyncTarget over the tracked heads. */
    method SelectInitialTarget(tracked: map<Peer, Key>) returns (target: Key, ghost sorted: seq<Key>)
      requires tracked != map[]
      ensures SortedHeads(tracked, sorted)
      ensures HeaviestOf(InsertAll(sorted)) == Some(target)
      ensures target in tracked.Values && forall p | p in tracked :: Weight(tracked[p]) <= Weight(target)
    {
      var list := SortByHeight(tracked);
      sorted := list;
      var buckets := new SyncBucketSet();
      for i := 0 to |list|
        invariant fresh(buckets) && buckets.buckets == InsertAll(list[..i])
      {
        assert list[..i + 1][..i] == list[..i];
        buckets.Add(list[i]);
      }
      assert list[..|list|] == list;
      var p :| p in tracked;
      assert tracked[p] in list;
      InitialIsHeaviest(list);
      var best := buckets.HeaviestTip();
      target := best.value;
      assert forall q | q in tracked :: tracked[q] in list;
    }

    method HandleHead(peer: Peer, ts: Key) returns (ghost e: Event)
      requires Valid() && Inv(cfg, Abs())
      modifies this, pend, deferred
      ensures Valid() && Enabled(cfg, old(Abs()), e) && Abs() == Step(cfg, old(Abs()), e)
      ensures e.PeerHead? && e.peer == peer && e.ts == ts
    {
      if nextWorker == 0 {
        var tracked := heads.value[peer := ts];
        if |tracked| < cfg.bootstrapPeers {
          heads := Some(tracked);
          e := PeerHead(peer, ts, None, []);
        } else {
          heads := None;
          var target;
          ghost var sorted;
          target, sorted := SelectInitialTarget(tracked);
          e := PeerHead(peer, ts, None, sorted);
          SpawnWorker(target);
        }
      } else {
        var target;
        ghost var hit;
        target, hit := AddTarget(ts);
        e := PeerHead(peer, ts, hit, []);
        if target.Some? {
          SpawnWorker(target.value);
        }
      }
    }
  }
}
