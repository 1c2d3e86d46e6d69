/** A run of the write-behind store after which its recorded buffer size is not the size of its buffer. */
module AutobatchExamples {
  import opened Outcomes
  import opened Autobatch
  import opened AutobatchSafety
  import opened Runs

  /** A put and a whole flush that succeeds. */
  function PutAndFlush(b: Blk): seq<Event> {
    [Put(b), FlushBegin(0, false), FlushLock(0), TakeBatch, StoreOne(0), PutReturns(true), ResetBatch]
  }

  function AfterPut(initial: map<Cid, Blk>, b: Blk, capacity: nat): State {
    Init(initial).(sh := PutSection(Init(initial).sh, b, capacity), order := [b])
  }

  function Flushing(initial: map<Cid, Blk>, b: Blk, capacity: nat, pc: FlushPc): State {
    AfterPut(initial, b, capacity).(flushes := map[0 := FlushCall(false, {b.cid}, None)], flusher := Holds(0, pc))
  }

  function AfterTake(initial: map<Cid, Blk>, b: Blk, capacity: nat): State {
    Flushing(initial, b, capacity, AtPut).(sh := TakeSection(AfterPut(initial, b, capacity).sh), taken := [[b]])
  }

  function AfterStore(initial: map<Cid, Blk>, b: Blk, capacity: nat, pc: FlushPc): State {
    var s := AfterTake(initial, b, capacity);
    s.(sh := s.sh.(backing := initial[b.cid := b]), flusher := Holds(0, pc))
  }

  function AfterFlush(initial: map<Cid, Blk>, b: Blk, capacity: nat): State {
    var s := AfterStore(initial, b, capacity, AtReset);
    s.(sh := s.sh.(flushing := EMPTY), flusher := Nobody, flushes := map[0 := FlushCall(false, {b.cid}, Some(true))])
  }

  lemma PutStep(initial: map<Cid, Blk>, b: Blk, capacity: nat)
    ensures Next(Init(initial), Put(b), capacity, AfterPut(initial, b, capacity))
  {
  }

  lemma FlushStarts(initial: map<Cid, Blk>, b: Blk, capacity: nat)
    ensures var s := AfterPut(initial, b, capacity);
            var begun := s.(flushes := map[0 := FlushCall(false, {b.cid}, None)]);
            Next(s, FlushBegin(0, false), capacity, begun)
            && Next(begun, FlushLock(0), capacity, Flushing(initial, b, capacity, AtTake))
  {
    assert AfterPut(initial, b, capacity).sh.addedCids == {b.cid};
  }

  lemma BatchIsStored(initial: map<Cid, Blk>, b: Blk, capacity: nat)
    ensures Next(Flushing(initial, b, capacity, AtTake), TakeBatch, capacity, AfterTake(initial, b, capacity))
    ensures Next(AfterTake(initial, b, capacity), StoreOne(0), capacity, AfterStore(initial, b, capacity, AtPut))
  {
    assert AfterPut(initial, b, capacity).sh.buffered.blockList == [b];
  }

  lemma FlushEnds(initial: map<Cid, Blk>, b: Blk, capacity: nat)
    ensures Next(AfterStore(initial, b, capacity, AtPut), PutReturns(true), capacity,
                 AfterStore(initial, b, capacity, AtReset))
    ensures Next(AfterStore(initial, b, capacity, AtReset), ResetBatch, capacity, AfterFlush(initial, b, capacity))
  {
    assert AfterStore(initial, b, capacity, AtPut).sh.flushing.blockList == [b];
  }

  lemma FourSteps<S, E>(next: (S, E, S) -> bool, es: seq<E>, ss: seq<S>)
    requires |es| == 4 && |ss| == 5
    requires next(ss[0], es[0], ss[1]) && next(ss[1], es[1], ss[2]) && next(ss[2], es[2], ss[3])
    requires next(ss[3], es[3], ss[4])
    ensures RunOf(next, ss[0], es, ss)
  {
  }

  lemma ThreeMore<S, E>(next: (S, E, S) -> bool, init: S, es: seq<E>, ss: seq<S>, fs: seq<E>, ts: seq<S>)
    requires RunOf(next, init, es, ss) && |fs| == 3 && |ts| == 3
    requires next(ss[|es|], fs[0], ts[0]) && next(ts[0], fs[1], ts[1]) && next(ts[1], fs[2], ts[2])
    ensures RunOf(next, init, es + fs, ss + ts)
  {
    RunOn(next, init, es, ss, fs[0], ts[0]);
    RunOn(next, init, es + [fs[0]], ss + [ts[0]], fs[1], ts[1]);
    RunOn(next, init, es + [fs[0]] + [fs[1]], ss + [ts[0]] + [ts[1]], fs[2], ts[2]);
    assert es + [fs[0]] + [fs[1]] + [fs[2]] == es + fs && ss + [ts[0]] + [ts[1]] + [ts[2]] == ss + ts;
  }

  function FirstStates(initial: map<Cid, Blk>, b: Blk, capacity: nat): seq<State> {
    var s := AfterPut(initial, b, capacity);
    [Init(initial), s, s.(flushes := map[0 := FlushCall(false, {b.cid}, None)]),
     Flushing(initial, b, capacity, AtTake), AfterTake(initial, b, capacity)]
  }

  function LastStates(initial: map<Cid, Blk>, b: Blk, capacity: nat): seq<State> {
    [AfterStore(initial, b, capacity, AtPut), AfterStore(initial, b, capacity, AtReset),
     AfterFlush(initial, b, capacity)]
  }

  lemma FirstHalf(initial: map<Cid, Blk>, b: Blk, capacity: nat)
    ensures RunOf(NextOf(capacity), Init(initial), [Put(b), FlushBegin(0, false), FlushLock(0), TakeBatch],
                  FirstStates(initial, b, capacity))
  {
    PutStep(initial, b, capacity);
    FlushStarts(initial, b, capacity);
    BatchIsStored(initial, b, capacity);
    FourSteps(NextOf(capacity), [Put(b), FlushBegin(0, false), FlushLock(0), TakeBatch],
              FirstStates(initial, b, capacity));
  }

  lemma WholeRun(initial: map<Cid, Blk>, b: Blk, capacity: nat)
    ensures RunOf(NextOf(capacity), Init(initial), PutAndFlush(b),
                  FirstStates(initial, b, capacity) + LastStates(initial, b, capacity))
  {
    var es, fs := [Put(b), FlushBegin(0, false), FlushLock(0), TakeBatch], [StoreOne(0), PutReturns(true), ResetBatch];
    FirstHalf(initial, b, capacity);
    BatchIsStored(initial, b, capacity);
    FlushEnds(initial, b, capacity);
    ThreeMore(NextOf(capacity), Init(initial), es, FirstStates(initial, b, capacity),
              fs, LastStates(initial, b, capacity));
    assert es + fs == PutAndFlush(b);
  }

  /** For every block with data: once it has been put and flushed the buffer is empty, and the recorded size is still
      the size of the block. */
  lemma SizeOutlivesFlush(initial: map<Cid, Blk>, b: Blk, capacity: nat) returns (ss: seq<State>)
    requires (forall c | c in initial :: initial[c].cid == c) && |b.data| > 0
    ensures Run(initial, capacity, PutAndFlush(b), ss)
    ensures ss[7].sh.buffered.blockList == [] && ss[7].sh.flushing.blockList == [] && b.cid in ss[7].sh.backing
    ensures ss[7].sh.bufferSize == |b.data| > TotalSize(ss[7].sh.buffered.blockList)
  {
    ss := FirstStates(initial, b, capacity) + LastStates(initial, b, capacity);
    assert Run(initial, capacity, PutAndFlush(b), ss) by { WholeRun(initial, b, capacity); }
    assert ss[7] == AfterFlush(initial, b, capacity);
  }
}
