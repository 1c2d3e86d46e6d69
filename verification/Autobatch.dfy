/** The write-behind blockstore: puts, flushes and reads as interleaved atomic steps.

    A put, the body of each critical section and each read of the backing store are one step.  A PutMany on
    the backing store makes blocks visible one by one before it returns, and may fail having stored any of them.
    `Wake` is the flush worker receiving the signal that a flush is due; its flush is then a call like any other.
 */
module Autobatch {
  import opened Outcomes

  type Cid = int
  type Thread = nat
  datatype Blk = Blk(cid: Cid, data: seq<int>)

  /** The same blocks twice: in order for flushing, and by CID for reading. */
  datatype Batch = Batch(blockList: seq<Blk>, blockMap: map<Cid, Blk>)

  const EMPTY := Batch([], map[])

  /** The fields of the store and of the backing store behind it. */
  datatype Shared = Shared(addedCids: set<Cid>, buffered: Batch, flushing: Batch, flushErr: bool,
                           bufferSize: nat, flushSignal: bool, backing: map<Cid, Blk>)

  /** Where the holder of the flush lock is. */
  datatype FlushPc = AtRetry | AtTake | AtPut | AtReset
  datatype Flusher = Nobody | Holds(thread: Thread, pc: FlushPc)

  /** A doFlush call and what had been put when it was made. */
  datatype FlushCall = FlushCall(retryOnly: bool, before: set<Cid>, result: Option<bool>)

  datatype Answer = Found(blk: Blk) | NotFound | Failed
  datatype GetPc = AtFirst | AtLocked | AtLast | Answered(answer: Answer)

  /** A Get call and what was readable when it was made. */
  datatype GetCall = GetCall(cid: Cid, before: set<Cid>, pc: GetPc)

  /** `initial` is the backing store at the start; `order` lists the blocks in order of first put and `taken`
      the batches taken for flushing so far. */
  datatype State = State(sh: Shared, flusher: Flusher,
                         flushes: map<Thread, FlushCall>, gets: map<Thread, GetCall>,
                         initial: map<Cid, Blk>, order: seq<Blk>, taken: seq<seq<Blk>>)

  function Init(initial: map<Cid, Blk>): State {
    State(Shared({}, EMPTY, EMPTY, false, 0, false, initial), Nobody, map[], map[], initial, [], [])
  }

  datatype Event =
    | Put(blk: Blk)
    | FlushBegin(thread: Thread, retryOnly: bool)
    | FlushLock(thread: Thread)
    | StoreOne(i: nat)
    | RetryReturns(ok: bool)
    | TakeBatch
    | PutReturns(ok: bool)
    | ResetBatch
    | Wake
    | GetBegin(thread: Thread, cid: Cid)
    | GetFirst(thread: Thread, fault: bool)
    | GetLocked(thread: Thread)
    | GetLast(thread: Thread, fault: bool)

  function Cids(list: seq<Blk>): set<Cid> {
    set b | b in list :: b.cid
  }

  predicate Stored(list: seq<Blk>, backing: map<Cid, Blk>) {
    forall b | b in list :: b.cid in backing
  }

  // The critical sections, on the fields alone.

  function PutSection(sh: Shared, blk: Blk, capacity: nat): Shared {
    if blk.cid in sh.addedCids then sh
    else
      var size := sh.bufferSize + |blk.data|;
      sh.(addedCids := sh.addedCids + {blk.cid},
          buffered := Batch(sh.buffered.blockList + [blk], sh.buffered.blockMap[blk.cid := blk]),
          bufferSize := size,
          flushSignal := sh.flushSignal || size >= capacity)
  }

  function TakeSection(sh: Shared): Shared {
    sh.(flushing := sh.buffered, buffered := EMPTY)
  }

  /** The locked look-up of Get. */
  function LookUp(sh: Shared, c: Cid): Option<Blk> {
    if c in sh.flushing.blockMap then Some(sh.flushing.blockMap[c])
    else if c in sh.buffered.blockMap then Some(sh.buffered.blockMap[c])
    else None
  }

  /** Calls may be answered, and new ones added, but what they asked for stays. */
  ghost predicate SameFlushes(f: map<Thread, FlushCall>, g: map<Thread, FlushCall>) {
    forall t | t in f :: t in g && g[t].before == f[t].before && g[t].retryOnly == f[t].retryOnly
  }

  ghost predicate SameGets(f: map<Thread, GetCall>, g: map<Thread, GetCall>) {
    forall t | t in f :: t in g && g[t].before == f[t].before && g[t].cid == f[t].cid
  }

  function Finish(s: State, ok: bool): (r: State)
    requires s.flusher.Holds? && s.flusher.thread in s.flushes
    ensures SameFlushes(s.flushes, r.flushes) && r == s.(flusher := Nobody, flushes := r.flushes)
  {
    var t := s.flusher.thread;
    s.(flusher := Nobody, flushes := s.flushes[t := s.flushes[t].(result := Some(ok))])
  }

  function Answering(s: State, t: Thread, pc: GetPc): (r: State)
    requires t in s.gets
    ensures SameGets(s.gets, r.gets) && r == s.(gets := r.gets)
  {
    s.(gets := s.gets[t := s.gets[t].(pc := pc)])
  }

  ghost predicate Enabled(s: State, e: Event) {
    match e
    case Put(_) => true
    case FlushBegin(t, _) => t !in s.flushes
    case FlushLock(t) => s.flusher == Nobody && t in s.flushes && s.flushes[t].result.None?
    case StoreOne(i) =>
      s.flusher.Holds? && (s.flusher.pc == AtRetry || s.flusher.pc == AtPut) && i < |s.sh.flushing.blockList|
    case RetryReturns(ok) => s.flusher.Holds? && s.flusher.pc == AtRetry && s.flusher.thread in s.flushes
                             && (ok ==> Stored(s.sh.flushing.blockList, s.sh.backing))
    case TakeBatch => s.flusher.Holds? && s.flusher.pc == AtTake
    case PutReturns(ok) => s.flusher.Holds? && s.flusher.pc == AtPut && s.flusher.thread in s.flushes
                           && (ok ==> Stored(s.sh.flushing.blockList, s.sh.backing))
    case ResetBatch => s.flusher.Holds? && s.flusher.pc == AtReset && s.flusher.thread in s.flushes
    case Wake => s.sh.flushSignal
    case GetBegin(t, _) => t !in s.gets
    case GetFirst(t, _) => t in s.gets && s.gets[t].pc == AtFirst
    case GetLocked(t) => t in s.gets && s.gets[t].pc == AtLocked
    case GetLast(t, _) => t in s.gets && s.gets[t].pc == AtLast
  }

  /** A read of the backing store that ends a Get, or sends it on. */
  function ReadBacking(s: State, t: Thread, fault: bool, otherwise: GetPc): State
    requires t in s.gets
  {
    var c := s.gets[t].cid;
    if fault then Answering(s, t, Answered(Failed))
    else if c in s.sh.backing then Answering(s, t, Answered(Found(s.sh.backing[c])))
    else Answering(s, t, otherwise)
  }

  /** The steps of doFlush. */
  ghost function FlushStep(s: State, e: Event): (r: State)
    requires Enabled(s, e) && !e.Put? && !IsGet(e)
    ensures SameFlushes(s.flushes, r.flushes)
    ensures r.gets == s.gets && r.order == s.order && r.initial == s.initial && r.sh.addedCids == s.sh.addedCids
  {
    match e
    case FlushBegin(t, retryOnly) =>
      s.(flushes := s.flushes[t := FlushCall(retryOnly, s.sh.addedCids, None)])
    case FlushLock(t) =>
      var held := s.(flusher := Holds(t, AtRetry));
      if s.sh.flushErr then held
      else if s.flushes[t].retryOnly then Finish(held, true)
      else s.(flusher := Holds(t, AtTake))
    case StoreOne(i) =>
      var b := s.sh.flushing.blockList[i];
      s.(sh := s.sh.(backing := s.sh.backing[b.cid := b]))
    case RetryReturns(ok) =>
      var t := s.flusher.thread;
      var r := s.(sh := s.sh.(flushErr := !ok));
      if !ok || s.flushes[t].retryOnly then Finish(r, ok) else r.(flusher := Holds(t, AtTake))
    case TakeBatch =>
      s.(sh := TakeSection(s.sh), flusher := s.flusher.(pc := AtPut), taken := s.taken + [s.sh.buffered.blockList])
    case PutReturns(ok) =>
      var r := s.(sh := s.sh.(flushErr := !ok));
      if ok then r.(flusher := s.flusher.(pc := AtReset)) else Finish(r, false)
    case ResetBatch =>
      Finish(s.(sh := s.sh.(flushing := EMPTY)), true)
    case Wake =>
      s.(sh := s.sh.(flushSignal := false))
  }

  predicate IsGet(e: Event) {
    e.GetBegin? || e.GetFirst? || e.GetLocked? || e.GetLast?
  }

  /** The steps of Get. */
  ghost function GetStep(s: State, e: Event): (r: State)
    requires Enabled(s, e) && IsGet(e)
    ensures SameGets(s.gets, r.gets) && r == s.(gets := r.gets)
  {
    match e
    case GetBegin(t, c) =>
      s.(gets := s.gets[t := GetCall(c, s.sh.addedCids + s.sh.backing.Keys, AtFirst)])
    case GetFirst(t, fault) => ReadBacking(s, t, fault, AtLocked)
    case GetLocked(t) =>
      var hit := LookUp(s.sh, s.gets[t].cid);
      Answering(s, t, if hit.Some? then Answered(Found(hit.value)) else AtLast)
    case GetLast(t, fault) => ReadBacking(s, t, fault, Answered(NotFound))
  }

  ghost function Step(s: State, e: Event, capacity: nat): State
    requires Enabled(s, e)
  {
    if e.Put? then
      s.(sh := PutSection(s.sh, e.blk, capacity),
         order := if e.blk.cid in s.sh.addedCids then s.order else s.order + [e.blk])
    else if IsGet(e) then GetStep(s, e)
    else FlushStep(s, e)
  }

  ghost predicate Next(s: State, e: Event, capacity: nat, t: State) {
    Enabled(s, e) && t == Step(s, e, capacity)
  }
}
