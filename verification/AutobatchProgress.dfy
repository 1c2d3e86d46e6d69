/** What becomes of every Get, and when a flush is signalled. */
module AutobatchProgress {
  import opened Outcomes
  import opened Autobatch
  import opened AutobatchSafety

  // -- a Get fails only if a read of the backing store does

  /** One of the first n events is a read of the backing store, for this thread's Get, that failed. */
  ghost predicate Faulted(es: seq<Event>, n: nat, t: Thread) {
    exists i | 0 <= i < n && i < |es| :: (es[i].GetFirst? || es[i].GetLast?) && es[i].thread == t && es[i].fault
  }

  /** A step answers a Get with a failure only if it is a read of its own that failed. */
  lemma FailsByOwnFault(s: State, e: Event, capacity: nat, t: Thread)
    requires Enabled(s, e) && t in Step(s, e, capacity).gets
    requires Step(s, e, capacity).gets[t].pc == Answered(Failed)
    ensures || (t in s.gets && s.gets[t].pc == Answered(Failed))
            || ((e.GetFirst? || e.GetLast?) && e.thread == t && e.fault)
  {
  }

  lemma {:induction false} FailedIsFaulted(initial: map<Cid, Blk>, capacity: nat, es: seq<Event>, ss: seq<State>,
                                           n: nat, t: Thread)
    requires Run(initial, capacity, es, ss) && n < |ss| && t in ss[n].gets && ss[n].gets[t].pc == Answered(Failed)
    ensures Faulted(es, n, t)
  {
    if n > 0 {
      RunNext(initial, capacity, es, ss, n - 1);
      FailsByOwnFault(ss[n - 1], es[n - 1], capacity, t);
      if t in ss[n - 1].gets && ss[n - 1].gets[t].pc == Answered(Failed) {
        FailedIsFaulted(initial, capacity, es, ss, n - 1, t);
      }
    }
  }

  /** A Get goes on asking for what it began with. */
  lemma StillAsks(initial: map<Cid, Blk>, capacity: nat, es: seq<Event>, ss: seq<State>, j: nat, n: nat)
    requires Run(initial, capacity, es, ss) && j < n < |ss| && es[j].GetBegin?
    ensures es[j].thread in ss[n].gets && ss[n].gets[es[j].thread].cid == es[j].cid
  {
    RunNext(initial, capacity, es, ss, j);
    RunIsLater(initial, capacity, es, ss, j + 1, n);
  }

  /** What a Get has found has the CID it asked for, and was put or was there from the start. */
  lemma FoundIsKnown(initial: map<Cid, Blk>, capacity: nat, es: seq<Event>, ss: seq<State>, n: nat, t: Thread)
    requires Run(initial, capacity, es, ss) && n < |ss| && t in ss[n].gets
    requires ss[n].gets[t].pc.Answered? && ss[n].gets[t].pc.answer.Found?
    ensures var g := ss[n].gets[t];
            g.pc.answer.blk.cid == g.cid && Known(g.pc.answer.blk, initial, FirstPuts(es, n))
  {
    RunsAreSafe(initial, capacity, es, ss, n);
    OrderIsFirstPuts(initial, capacity, es, ss, n);
    InitialStays(initial, capacity, es, ss, n);
    assert GetOk(ss[n].gets[t], ss[n].sh, ss[n].initial, ss[n].order);
  }

  /** In every run, a Get that starts after a Put of its CID and is answered without a fault of its own finds a block
      with that CID, one that was put or was in the backing store from the start. */
  lemma GetReturnsEarlierPut(initial: map<Cid, Blk>, capacity: nat, es: seq<Event>, ss: seq<State>,
                             k: nat, j: nat, n: nat)
    requires Run(initial, capacity, es, ss) && k < j < n < |ss|
    requires es[k].Put? && es[j].GetBegin? && es[j].cid == es[k].blk.cid
    requires es[j].thread in ss[n].gets && ss[n].gets[es[j].thread].pc.Answered? && !Faulted(es, n, es[j].thread)
    ensures var answer := ss[n].gets[es[j].thread].pc.answer;
            answer.Found? && answer.blk.cid == es[j].cid && Known(answer.blk, initial, FirstPuts(es, n))
  {
    var t := es[j].thread;
    StillAsks(initial, capacity, es, ss, j, n);
    if ss[n].gets[t].pc.answer == Failed {
      FailedIsFaulted(initial, capacity, es, ss, n, t);
    } else {
      GetFindsEarlierPut(initial, capacity, es, ss, k, j, n);
      FoundIsKnown(initial, capacity, es, ss, n, t);
    }
  }

  lemma {:induction false} InitialStays(initial: map<Cid, Blk>, capacity: nat, es: seq<Event>, ss: seq<State>, n: nat)
    requires Run(initial, capacity, es, ss) && n < |ss|
    ensures ss[n].initial == initial
  {
    if n > 0 {
      InitialStays(initial, capacity, es, ss, n - 1);
      RunNext(initial, capacity, es, ss, n - 1);
    }
  }

  // -- a flush fails only if a write to the backing store does

  /** One of the first n events is a failed write that this thread's flush was waiting for. */
  ghost predicate WriteFailed(es: seq<Event>, ss: seq<State>, n: nat, t: Thread) {
    exists i | 0 <= i < n && i < |es| && i < |ss| ::
      (es[i] == RetryReturns(false) || es[i] == PutReturns(false)) && ss[i].flusher.Holds? && ss[i].flusher.thread == t
  }

  lemma FlushFailsByOwnWrite(s: State, e: Event, capacity: nat, t: Thread)
    requires Enabled(s, e) && t in Step(s, e, capacity).flushes
    requires Step(s, e, capacity).flushes[t].result == Some(false)
    ensures || (t in s.flushes && s.flushes[t].result == Some(false))
            || ((e == RetryReturns(false) || e == PutReturns(false)) && s.flusher.Holds? && s.flusher.thread == t)
  {
  }

  /** In every run, a flush that has returned an error waited for a write that failed. */
  lemma {:induction false} FlushErrorIsReal(initial: map<Cid, Blk>, capacity: nat, es: seq<Event>, ss: seq<State>,
                                            n: nat, t: Thread)
    requires Run(initial, capacity, es, ss) && n < |ss| && t in ss[n].flushes
    requires ss[n].flushes[t].result == Some(false)
    ensures WriteFailed(es, ss, n, t)
  {
    if n > 0 {
      RunNext(initial, capacity, es, ss, n - 1);
      FlushFailsByOwnWrite(ss[n - 1], es[n - 1], capacity, t);
      if t in ss[n - 1].flushes && ss[n - 1].flushes[t].result == Some(false) {
        FlushErrorIsReal(initial, capacity, es, ss, n - 1, t);
      }
    }
  }

  // -- a flush that returns no error, retrying or not

  lemma SucceedsWithoutError(s: State, e: Event, capacity: nat, t: Thread)
    requires Enabled(s, e) && t in Step(s, e, capacity).flushes
    requires s.flusher.Holds? && s.flusher.pc == AtReset ==> !s.sh.flushErr
    requires Step(s, e, capacity).flushes[t].result == Some(true)
    ensures var r := Step(s, e, capacity);
            || (t in s.flushes && s.flushes[t].result == Some(true))
            || (r.flusher == Nobody && !r.sh.flushErr)
  {
  }

  lemma SucceedsWhenStored(s: State, e: Event, capacity: nat, t: Thread)
    requires Inv(s) && Enabled(s, e) && t in Step(s, e, capacity).flushes
    requires Step(s, e, capacity).flushes[t].result == Some(true)
    ensures var r := Step(s, e, capacity);
            || (t in s.flushes && s.flushes[t].result == Some(true))
            || (!r.sh.flushErr && AllStored(r.taken, r.sh.backing))
  {
    SucceedsWithoutError(s, e, capacity, t);
    StepKeeps(s, e, capacity);
    var r := Step(s, e, capacity);
    assert FlusherOk(r.flusher, r.flushes, r.sh.flushErr, r.taken, r.sh.backing);
  }

  /** In every run, when a flush returns without error, even one that only retries, no failed write is left over, and
      all batches taken by then are in the backing store for good. */
  lemma SuccessIsStored(initial: map<Cid, Blk>, capacity: nat, es: seq<Event>, ss: seq<State>, n: nat, m: nat,
                        t: Thread)
    requires Run(initial, capacity, es, ss) && n < m < |ss| && t in ss[n + 1].flushes
    requires ss[n + 1].flushes[t].result == Some(true)
    requires t in ss[n].flushes ==> ss[n].flushes[t].result != Some(true)
    ensures !ss[n + 1].sh.flushErr && AllStored(ss[n + 1].taken, ss[m].sh.backing)
  {
    RunsAreSafe(initial, capacity, es, ss, n);
    RunNext(initial, capacity, es, ss, n);
    SucceedsWhenStored(ss[n], es[n], capacity, t);
    RunIsLater(initial, capacity, es, ss, n + 1, m);
    StoredMono(ss[n + 1].taken, ss[n + 1].sh.backing, ss[m].sh.backing);
  }

  // -- a Get that nothing comes in between of

  /** A Get of c on these fields, about to make its first read. */
  function Asking(sh: Shared, c: Cid): State {
    State(sh, Nobody, map[], map[0 := GetCall(c, {}, AtFirst)], map[], [], [])
  }

  ghost function Advance(s: State): State
    requires 0 in s.gets
  {
    match s.gets[0].pc
    case AtFirst => Step(s, GetFirst(0, false), 0)
    case AtLocked => Step(s, GetLocked(0), 0)
    case AtLast => Step(s, GetLast(0, false), 0)
    case Answered(_) => s
  }

  /** What its three reads come to, one after the other. */
  ghost function Alone(sh: Shared, c: Cid): GetPc {
    Advance(Advance(Advance(Asking(sh, c)))).gets[0].pc
  }

  /** It is answered, and finds what the backing store has, then what is in flight, then what is buffered. */
  lemma AloneFinds(sh: Shared, c: Cid)
    ensures Alone(sh, c).Answered? && !Alone(sh, c).answer.Failed?
    ensures c in sh.backing ==> Alone(sh, c) == Answered(Found(sh.backing[c]))
    ensures c !in sh.backing && c in sh.flushing.blockMap ==>
              Alone(sh, c) == Answered(Found(sh.flushing.blockMap[c]))
    ensures c !in sh.backing && c !in sh.flushing.blockMap && c in sh.buffered.blockMap ==>
              Alone(sh, c) == Answered(Found(sh.buffered.blockMap[c]))
    ensures c !in sh.backing && c !in sh.flushing.blockMap && c !in sh.buffered.blockMap ==>
              Alone(sh, c) == Answered(NotFound)
  {
    var s := Asking(sh, c);
    var t := Advance(s);
    assert t.sh == sh && t.gets[0].cid == c;
    var u := Advance(t);
    assert u.sh == sh && u.gets[0].cid == c;
  }

  // -- when a flush is signalled

  /** The j-th event is the first put of its CID and brings the size of all puts to the capacity or beyond. */
  ghost predicate FillsUp(es: seq<Event>, capacity: nat, j: nat) {
    && j < |es| && es[j].Put? && es[j].blk.cid !in Cids(FirstPuts(es, j))
    && TotalSize(FirstPuts(es, j + 1)) >= capacity
  }

  ghost predicate Signalled(es: seq<Event>, capacity: nat, n: nat, j: nat) {
    FillsUp(es, capacity, j) && j < n && forall i | j < i < n && i < |es| :: !es[i].Wake?
  }

  lemma PutSignals(s: State, blk: Blk, capacity: nat)
    requires InOrder(s.sh, s.taken, s.order) && blk.cid !in s.sh.addedCids
    ensures PutSection(s.sh, blk, capacity).flushSignal
            <==> s.sh.flushSignal || TotalSize(s.order + [blk]) >= capacity
  {
    AppendBlock(s.order, blk);
  }

  lemma FlushKeepsSignal(s: State, e: Event)
    requires Enabled(s, e) && !e.Put? && !IsGet(e)
    ensures FlushStep(s, e).sh.flushSignal == (s.sh.flushSignal && !e.Wake?)
  {
  }

  lemma SignalStep(s: State, e: Event, capacity: nat)
    requires InOrder(s.sh, s.taken, s.order) && Enabled(s, e)
    ensures Step(s, e, capacity).sh.flushSignal
            <==> || (e.Put? && e.blk.cid !in Cids(s.order) && TotalSize(OrderAfter(s.order, e)) >= capacity)
                 || (s.sh.flushSignal && !e.Wake?)
  {
    assert s.sh.addedCids == Cids(s.order);
    if e.Put? {
      if e.blk.cid !in Cids(s.order) {
        PutSignals(s, e.blk, capacity);
      }
    } else if IsGet(e) {
      assert Step(s, e, capacity).sh == s.sh;
    } else {
      FlushKeepsSignal(s, e);
    }
  }

  /** Some first put since the worker last woke up filled the buffer. */
  ghost predicate Due(es: seq<Event>, capacity: nat, n: nat) {
    exists j :: Signalled(es, capacity, n, j)
  }

  lemma SignalledOn(es: seq<Event>, capacity: nat, m: nat, n: nat)
    requires m < |es| && n == m + 1
    ensures Due(es, capacity, n) <==> FillsUp(es, capacity, m) || (!es[m].Wake? && Due(es, capacity, m))
  {
    if FillsUp(es, capacity, m) {
      assert Signalled(es, capacity, n, m);
    }
    if j :| Signalled(es, capacity, m, j) {
      assert es[m].Wake? || Signalled(es, capacity, n, j);
    }
    if j :| Signalled(es, capacity, n, j) {
      assert j == m || (Signalled(es, capacity, m, j) && !es[m].Wake?);
    }
  }

  ghost predicate SignalMoves(es: seq<Event>, capacity: nat, signal: seq<bool>, m: nat) {
    && m < |es| && m + 1 < |signal|
    && (signal[m + 1] <==> FillsUp(es, capacity, m) || (signal[m] && !es[m].Wake?))
  }

  lemma {:induction false} SignalIsDue(es: seq<Event>, capacity: nat, signal: seq<bool>, n: nat)
    requires |signal| == |es| + 1 && !signal[0] && n <= |es|
    requires forall m | 0 <= m < |es| :: SignalMoves(es, capacity, signal, m)
    ensures signal[n] <==> Due(es, capacity, n)
  {
    if n > 0 {
      SignalIsDue(es, capacity, signal, n - 1);
      assert SignalMoves(es, capacity, signal, n - 1);
      SignalledOn(es, capacity, n - 1, n);
    }
  }

  lemma RunSignal(initial: map<Cid, Blk>, capacity: nat, es: seq<Event>, ss: seq<State>, m: nat)
    requires Run(initial, capacity, es, ss) && m < |es|
    ensures |ss| == |es| + 1
    ensures ss[m + 1].sh.flushSignal <==> FillsUp(es, capacity, m) || (ss[m].sh.flushSignal && !es[m].Wake?)
  {
    RunsAreSafe(initial, capacity, es, ss, m);
    RunNext(initial, capacity, es, ss, m);
    OrderIsFirstPuts(initial, capacity, es, ss, m);
    SignalStep(ss[m], es[m], capacity);
  }

  /** In every run the signal that a flush is due stands if and only if some first put since the worker last woke up
      found the size of everything put so far at or beyond the capacity. */
  lemma SignalExact(initial: map<Cid, Blk>, capacity: nat, es: seq<Event>, ss: seq<State>, n: nat)
    requires Run(initial, capacity, es, ss) && n < |ss|
    ensures ss[n].sh.flushSignal <==> Due(es, capacity, n)
  {
    var signal := seq(|ss|, i requires 0 <= i < |ss| => ss[i].sh.flushSignal);
    forall m | 0 <= m < |es|
      ensures SignalMoves(es, capacity, signal, m)
    {
      RunSignal(initial, capacity, es, ss, m);
    }
    SignalIsDue(es, capacity, signal, n);
  }
}
