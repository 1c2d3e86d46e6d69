/** The sync scheduler as a state machine: what every peer head, worker report and tick does to its state.

    Where the original ranges over a map, the choice it is left with is part of the event:
    `hit`, the worker a new head is found to touch first, and `picks`, the worker looked at when a
    deferred target is considered while n buckets are left.
 */
module Scheduling {
  import opened Outcomes
  import opened Tipsets
  import opened SyncBuckets
  import opened SyncBuffers

  type Peer = nat

  datatype Config = Config(maxWorkers: nat, recentSize: nat, bootstrapPeers: nat)

  /** A worker start: its target and all targets synced successfully until then. */
  datatype Spawned = Spawned(target: Key, synced: seq<Key>)

  /** `running` are the workers that have yet to report; `synced` and `spawned` are histories. */
  datatype State = State(nextWorker: nat,
                         workers: map<nat, Key>,
                         pend: seq<Bucket>,
                         deferred: seq<Bucket>,
                         heads: Option<map<Peer, Key>>,
                         initialSyncDone: bool,
                         ticking: bool,
                         running: set<nat>,
                         synced: seq<Key>,
                         spawned: seq<Spawned>)

  const INITIAL := State(0, map[], [], [], Some(map[]), false, true, {}, [], [])

  datatype Event =
    | PeerHead(peer: Peer, ts: Key, hit: Option<nat>, sorted: seq<Key>)
    | WorkerDone(id: nat, ok: bool, fast: bool, picks: map<nat, nat>)
    | Tick(picks: map<nat, nat>)

  /** A state and the target selected, if any. */
  datatype Choice = Choice(s: State, target: Option<Key>)

  predicate RecentlySynced(cfg: Config, s: State, ts: Key) {
    SyncedIn(LastN(s.synced, cfg.recentSize), ts)
  }

  function Spawn(s: State, target: Key): State {
    s.(nextWorker := s.nextWorker + 1,
       workers := s.workers[s.nextWorker := target],
       running := s.running + {s.nextWorker},
       spawned := s.spawned + [Spawned(target, s.synced)])
  }

  function Start(c: Choice): State {
    if c.target.Some? then Spawn(c.s, c.target.value) else c.s
  }

  /** ts is what the worker is on, or extends it. */
  predicate Touches(target: Key, ts: Key) {
    ts == target || Parents(ts) == target
  }

  predicate HeavierWorker(s: State, ts: Key) {
    exists id | id in s.workers :: Weight(s.workers[id]) > Weight(ts)
  }

  ghost predicate HeavierPending(s: State, ts: Key)
    requires BucketsOk(s.pend)
  {
    HeaviestOf(s.pend).Some? && Weight(HeaviestOf(s.pend).value) > Weight(ts)
  }

  ghost predicate HitOk(s: State, ts: Key, hit: Option<nat>) {
    match hit
    case Some(id) => id in s.workers && Touches(s.workers[id], ts)
    case None => forall id | id in s.workers :: !Touches(s.workers[id], ts)
  }

  ghost function AddSyncTarget(cfg: Config, s: State, ts: Key, hit: Option<nat>): Choice
    requires BucketsOk(s.pend) && HitOk(s, ts, hit)
  {
    if RecentlySynced(cfg, s, ts) then Choice(s, None)
    else if s.workers == map[] then Choice(s, Some(ts))
    else if hit.Some? then
      if ts == s.workers[hit.value] then Choice(s, None)
      else Choice(s.(pend := Insert(s.pend, ts)), None)
    else if RelatedToAny(s.pend, ts) then Choice(s.(pend := Insert(s.pend, ts)), None)
    else if HeavierWorker(s, ts) || HeavierPending(s, ts) then Choice(s, None)
    else if !s.initialSyncDone || |s.workers| >= cfg.maxWorkers
    then Choice(s.(deferred := Insert(s.deferred, ts)), None)
    else Choice(s, Some(ts))
  }

  ghost function PickWorker(s: State, n: nat, picks: map<nat, nat>): (id: nat)
    requires s.workers != map[]
    ensures id in s.workers
  {
    if n in picks && picks[n] in s.workers then picks[n]
    else
      var id :| id in s.workers; id
  }

  /** The state after popping the best deferred bucket, and the heaviest tipset of that bucket. */
  ghost function PopDeferred(s: State): (r: (State, Key))
    requires BucketsOk(s.deferred) && s.deferred != []
    ensures BucketsOk(r.0.deferred) && |r.0.deferred| == |s.deferred| - 1
    ensures r.0 == s.(deferred := r.0.deferred)
  {
    var k := FirstMax(Heads(s.deferred));
    WithoutOk(s.deferred, k);
    (s.(deferred := Without(s.deferred, k)), Heaviest(s.deferred[k]))
  }

  /** What becomes of a deferred target: forgotten, moved to the pending queue, or started. */
  datatype Verdict = Drop | Move | Take

  ghost function Judge(cfg: Config, s: State, heaviest: Key, n: nat, picks: map<nat, nat>): Verdict {
    if RecentlySynced(cfg, s, heaviest) then Drop
    else if RelatedToAny(s.pend, heaviest) then Move
    else if s.workers == map[] then Drop
    else
      var target := s.workers[PickWorker(s, n, picks)];
      if target == heaviest || Weight(target) > Weight(heaviest) then Drop
      else if Parents(heaviest) == target then Move
      else Take
  }

  /** One turn of the loop over the deferred queue. */
  ghost function DeferredTurn(cfg: Config, s: State, picks: map<nat, nat>): (c: Choice)
    requires BucketsOk(s.deferred) && s.deferred != []
    ensures c.s == s.(pend := c.s.pend, deferred := c.s.deferred)
    ensures BucketsOk(c.s.deferred) && |c.s.deferred| == |s.deferred| - 1 && c.s.deferred == PopDeferred(s).0.deferred
    ensures c.target.Some? ==> s.workers != map[] && !RecentlySynced(cfg, s, c.target.value)
  {
    var (rest, heaviest) := PopDeferred(s);
    match Judge(cfg, rest, heaviest, |s.deferred|, picks)
    case Drop => Choice(rest, None)
    case Move => Choice(rest.(pend := Insert(rest.pend, heaviest)), None)
    case Take => Choice(rest, Some(heaviest))
  }

  ghost function SelectDeferred(cfg: Config, s: State, picks: map<nat, nat>): (c: Choice)
    requires BucketsOk(s.deferred)
    ensures c.s == s.(pend := c.s.pend, deferred := c.s.deferred)
    ensures BucketsOk(c.s.deferred)
    ensures if c.target.None? then c.s.deferred == [] else |c.s.deferred| < |s.deferred|
    ensures c.target.Some? ==> s.workers != map[] && !RecentlySynced(cfg, s, c.target.value)
    decreases |s.deferred|
  {
    if s.deferred == [] then Choice(s, None)
    else
      var c := DeferredTurn(cfg, s, picks);
      if c.target.Some? then c else SelectDeferred(cfg, c.s, picks)
  }

  ghost function SelectSyncTarget(cfg: Config, s: State, done: Key, picks: map<nat, nat>): (c: Choice)
    requires BucketsOk(s.pend) && BucketsOk(s.deferred)
    ensures c.s == s.(pend := c.s.pend, deferred := c.s.deferred)
  {
    PopRelatedOk(s.pend, done);
    var popped := s.(pend := Unrelated(s.pend, done));
    if !RelatedToAny(s.pend, done) then SelectDeferred(cfg, popped, picks)
    else
      var heaviest := Heaviest(RelatedTips(s.pend, done));
      if Weight(done) > Weight(heaviest) || HeavierWorker(s, heaviest) || RecentlySynced(cfg, s, heaviest)
      then SelectDeferred(cfg, popped, picks)
      else Choice(popped, Some(heaviest))
  }

  /** Insert tipsets one after the other into an empty queue. */
  ghost function InsertAll(list: seq<Key>): (r: seq<Bucket>)
    ensures BucketsOk(r) && Tips(r) == set ts | ts in list
  {
    if list == [] then []
    else
      var front := InsertAll(list[..|list| - 1]);
      InsertOk(front, list[|list| - 1]);
      assert list == list[..|list| - 1] + [list[|list| - 1]];
      Insert(front, list[|list| - 1])
  }

  ghost function HandlePeerHead(cfg: Config, s: State, e: Event): (t: State)
    requires e.PeerHead? && Ready(s) && Enabled(cfg, s, e)
    ensures s.spawned <= t.spawned && t.synced == s.synced
  {
    if s.nextWorker == 0 then
      var heads := s.heads.value[e.peer := e.ts];
      if |heads| < cfg.bootstrapPeers then s.(heads := Some(heads))
      else Spawn(s.(heads := None), HeaviestOf(InsertAll(e.sorted)).value)
    else Start(AddSyncTarget(cfg, s, e.ts, e.hit))
  }

  /** The state once a report has been taken in: the worker is gone and a success remembered. */
  function Told(s: State, e: Event): State
    requires e.WorkerDone? && e.id in s.workers
  {
    var freed := s.(workers := s.workers - {e.id}, running := s.running - {e.id});
    if !e.ok then freed
    else freed.(synced := s.synced + [s.workers[e.id]], initialSyncDone := s.initialSyncDone || e.fast)
  }

  ghost function HandleWorkerStatus(cfg: Config, s: State, e: Event): (t: State)
    requires e.WorkerDone? && Ready(s) && Enabled(cfg, s, e)
    ensures s.spawned <= t.spawned && t.synced == s.synced + if e.ok then [s.workers[e.id]] else []
  {
    Start(SelectSyncTarget(cfg, Told(s, e), s.workers[e.id], e.picks))
  }

  /** Start deferred targets while there is room for workers. */
  ghost function HandleInitialSyncDone(cfg: Config, s: State, picks: map<nat, nat>): (t: State)
    requires BucketsOk(s.deferred)
    ensures s.spawned <= t.spawned && t.synced == s.synced
    decreases |s.deferred|
  {
    if |s.workers| >= cfg.maxWorkers then s
    else
      var c := SelectDeferred(cfg, s, picks);
      if c.target.None? then c.s else HandleInitialSyncDone(cfg, Spawn(c.s, c.target.value), picks)
  }

  /** What the handlers rely on and would crash without. */
  ghost predicate Ready(s: State) {
    && BucketsOk(s.pend) && BucketsOk(s.deferred)
    && s.running <= s.workers.Keys
    && (s.nextWorker == 0 ==> s.heads.Some?)
  }

  ghost predicate SortedHeads(heads: map<Peer, Key>, sorted: seq<Key>) {
    && (forall ts :: ts in sorted <==> ts in heads.Values)
    && (forall i, j | 0 <= i < j < |sorted| :: Height(sorted[i]) <= Height(sorted[j]))
  }

  ghost predicate Enabled(cfg: Config, s: State, e: Event)
    requires Ready(s)
  {
    match e
    case PeerHead(p, ts, hit, sorted) =>
      if s.nextWorker == 0 then
        var heads := s.heads.value[p := ts];
        |heads| >= cfg.bootstrapPeers ==> SortedHeads(heads, sorted)
      else HitOk(s, ts, hit)
    case WorkerDone(id, ok, fast, picks) => id in s.running
    case Tick(picks) => s.ticking
  }

  ghost function Step(cfg: Config, s: State, e: Event): State
    requires Ready(s) && Enabled(cfg, s, e)
  {
    match e
    case PeerHead(_, _, _, _) => HandlePeerHead(cfg, s, e)
    case WorkerDone(_, _, _, _) => HandleWorkerStatus(cfg, s, e)
    case Tick(picks) => if s.initialSyncDone then HandleInitialSyncDone(cfg, s.(ticking := false), picks) else s
  }
}
