/** What the write-behind store guarantees under every interleaving. */
module AutobatchSafety {
  import opened Outcomes
  import opened Autobatch
  import opened Runs

  ghost function Flat(batches: seq<seq<Blk>>): seq<Blk> {
    if batches == [] then [] else Flat(batches[..|batches| - 1]) + batches[|batches| - 1]
  }

  ghost function TotalSize(list: seq<Blk>): nat {
    if list == [] then 0 else TotalSize(list[..|list| - 1]) + |list[|list| - 1].data|
  }

  /** The map of a batch is about the blocks of its list. */
  ghost predicate Indexed(b: Batch) {
    && (forall blk | blk in b.blockList :: blk.cid in b.blockMap)
    && (forall c | c in b.blockMap :: b.blockMap[c] in b.blockList && b.blockMap[c].cid == c)
  }

  ghost predicate Distinct(list: seq<Blk>) {
    forall i, j | 0 <= i < j < |list| :: list[i].cid != list[j].cid
  }

  /** The batches taken and the buffer together are the blocks put, in order of first put and each once. */
  ghost predicate InOrder(sh: Shared, taken: seq<seq<Blk>>, order: seq<Blk>) {
    && Flat(taken) + sh.buffered.blockList == order
    && Distinct(order)
    && sh.addedCids == Cids(order)
    && sh.bufferSize == TotalSize(order)
    && Indexed(sh.buffered) && Indexed(sh.flushing)
  }

  ghost predicate AllStored(taken: seq<seq<Blk>>, backing: map<Cid, Blk>) {
    forall k | 0 <= k < |taken| :: Stored(taken[k], backing)
  }

  /** Only the batch taken last can be incomplete in the backing store, and then it is still at hand. */
  ghost predicate OneInFlight(sh: Shared, taken: seq<seq<Blk>>) {
    if taken == [] then sh.flushing.blockList == []
    else
      var last := taken[|taken| - 1];
      && AllStored(taken[..|taken| - 1], sh.backing)
      && (sh.flushing.blockList == last || (sh.flushing.blockList == [] && Stored(last, sh.backing)))
  }

  ghost predicate FlusherOk(flusher: Flusher, flushes: map<Thread, FlushCall>, flushErr: bool,
                            taken: seq<seq<Blk>>, backing: map<Cid, Blk>) {
    match flusher
    case Nobody => flushErr || AllStored(taken, backing)
    case Holds(t, pc) =>
      && t in flushes && flushes[t].result.None?
      && (pc == AtRetry <==> flushErr)
      && (pc == AtTake || pc == AtReset ==> AllStored(taken, backing))
      && (pc != AtRetry ==> !flushes[t].retryOnly)
      && (pc == AtPut || pc == AtReset ==> flushes[t].before <= Cids(Flat(taken)))
  }

  /** The backing store keeps what it had and gains only what was put. */
  ghost predicate BackingOk(backing: map<Cid, Blk>, initial: map<Cid, Blk>, order: seq<Blk>) {
    && initial.Keys <= backing.Keys
    && forall c | c in backing :: backing[c].cid == c && Known(backing[c], initial, order)
  }

  /** The block was put, or was in the backing store from the start. */
  ghost predicate Known(b: Blk, initial: map<Cid, Blk>, order: seq<Blk>) {
    b in order || (b.cid in initial && b == initial[b.cid])
  }

  /** A flush that was not a mere retry and returned no error leaves everything put before it in the
      backing store. */
  ghost predicate FlushOk(f: FlushCall, sh: Shared) {
    && f.before <= sh.addedCids
    && (f.result == Some(true) && !f.retryOnly ==> f.before <= sh.backing.Keys)
  }

  /** A Get never denies what was readable when it started, and hands out only what was put or there. */
  ghost predicate GetOk(g: GetCall, sh: Shared, initial: map<Cid, Blk>, order: seq<Blk>) {
    && g.before <= sh.addedCids + sh.backing.Keys
    && (g.pc == AtLast && g.cid in g.before ==> g.cid in sh.backing)
    && (g.pc == Answered(NotFound) ==> g.cid !in g.before)
    && (g.pc.Answered? && g.pc.answer.Found? ==> g.pc.answer.blk.cid == g.cid && Known(g.pc.answer.blk, initial, order))
  }

  ghost predicate FlushesOk(flushes: map<Thread, FlushCall>, sh: Shared) {
    forall t | t in flushes :: FlushOk(flushes[t], sh)
  }

  ghost predicate GetsOk(gets: map<Thread, GetCall>, sh: Shared, initial: map<Cid, Blk>, order: seq<Blk>) {
    forall t | t in gets :: GetOk(gets[t], sh, initial, order)
  }

  ghost predicate Inv(s: State) {
    && InOrder(s.sh, s.taken, s.order)
    && OneInFlight(s.sh, s.taken)
    && FlusherOk(s.flusher, s.flushes, s.sh.flushErr, s.taken, s.sh.backing)
    && BackingOk(s.sh.backing, s.initial, s.order)
    && FlushesOk(s.flushes, s.sh)
    && GetsOk(s.gets, s.sh, s.initial, s.order)
  }

  // Facts about lists of blocks.

  lemma FlatAppend(batches: seq<seq<Blk>>, b: seq<Blk>)
    ensures Flat(batches + [b]) == Flat(batches) + b
  {
    assert (batches + [b])[..|batches|] == batches;
  }

  lemma {:induction false} InFlat(batches: seq<seq<Blk>>, b: Blk)
    ensures b in Flat(batches) <==> exists k :: 0 <= k < |batches| && b in batches[k]
  {
    if batches != [] {
      InFlat(batches[..|batches| - 1], b);
    }
  }

  lemma AppendBlock(list: seq<Blk>, b: Blk)
    requires Distinct(list) && b.cid !in Cids(list)
    ensures Distinct(list + [b]) && Cids(list + [b]) == Cids(list) + {b.cid}
    ensures TotalSize(list + [b]) == TotalSize(list) + |b.data|
  {
    assert (list + [b])[..|list|] == list;
    assert forall i | 0 <= i < |list| :: list[i].cid in Cids(list);
  }

  lemma AllTakenStored(taken: seq<seq<Blk>>, backing: map<Cid, Blk>)
    requires AllStored(taken, backing)
    ensures Cids(Flat(taken)) <= backing.Keys
  {
    forall b | b in Flat(taken)
      ensures b.cid in backing
    {
      InFlat(taken, b);
    }
  }

  /** Everything put is in the backing store, in the batch in flight or in the buffer. */
  lemma NothingLost(s: State, c: Cid)
    requires InOrder(s.sh, s.taken, s.order) && OneInFlight(s.sh, s.taken) && c in s.sh.addedCids
    ensures c in s.sh.backing || c in s.sh.flushing.blockMap || c in s.sh.buffered.blockMap
  {
    var b :| b in s.order && b.cid == c;
    InFlat(s.taken, b);
  }

  /** More put and more stored never breaks a promise made to a call. */
  lemma CallsMono(s: State, sh: Shared, order: seq<Blk>)
    requires FlushesOk(s.flushes, s.sh) && GetsOk(s.gets, s.sh, s.initial, s.order)
    requires s.sh.addedCids <= sh.addedCids && s.sh.backing.Keys <= sh.backing.Keys && s.order <= order
    ensures FlushesOk(s.flushes, sh) && GetsOk(s.gets, sh, s.initial, order)
  {
    forall t | t in s.gets
      ensures GetOk(s.gets[t], sh, s.initial, order)
    {
      assert GetOk(s.gets[t], s.sh, s.initial, s.order);
    }
    forall t | t in s.flushes
      ensures FlushOk(s.flushes[t], sh)
    {
      assert FlushOk(s.flushes[t], s.sh);
    }
  }

  lemma PutSectionKeeps(sh: Shared, taken: seq<seq<Blk>>, order: seq<Blk>, blk: Blk, capacity: nat)
    requires InOrder(sh, taken, order) && OneInFlight(sh, taken) && blk.cid !in sh.addedCids
    ensures var r := PutSection(sh, blk, capacity);
            InOrder(r, taken, order + [blk]) && OneInFlight(r, taken)
  {
    AppendBlock(order, blk);
    assert Flat(taken) + (sh.buffered.blockList + [blk]) == order + [blk];
  }

  lemma StoredMono(taken: seq<seq<Blk>>, backing: map<Cid, Blk>, more: map<Cid, Blk>)
    requires AllStored(taken, backing) && backing.Keys <= more.Keys
    ensures AllStored(taken, more)
  {
    forall k | 0 <= k < |taken|
      ensures Stored(taken[k], more)
    {
      assert Stored(taken[k], backing);
    }
  }

  lemma StoringKeeps(sh: Shared, taken: seq<seq<Blk>>, order: seq<Blk>, more: map<Cid, Blk>)
    requires InOrder(sh, taken, order) && OneInFlight(sh, taken) && sh.backing.Keys <= more.Keys
    ensures var r := sh.(backing := more); InOrder(r, taken, order) && OneInFlight(r, taken)
  {
    if taken != [] {
      StoredMono(taken[..|taken| - 1], sh.backing, more);
    }
  }

  lemma PutKeeps(s: State, blk: Blk, capacity: nat)
    requires Inv(s)
    ensures Inv(Step(s, Put(blk), capacity))
  {
    if blk.cid !in s.sh.addedCids {
      var t := Step(s, Put(blk), capacity);
      PutSectionKeeps(s.sh, s.taken, s.order, blk, capacity);
      CallsMono(s, t.sh, t.order);
    }
  }

  lemma StoreKeeps(s: State, i: nat, capacity: nat)
    requires Inv(s) && Enabled(s, StoreOne(i))
    ensures Inv(Step(s, StoreOne(i), capacity))
  {
    var b := s.sh.flushing.blockList[i];
    var t := Step(s, StoreOne(i), capacity);
    InFlat(s.taken, b);
    assert b in s.order;
    StoringKeeps(s.sh, s.taken, s.order, t.sh.backing);
    CallsMono(s, t.sh, t.order);
  }

  lemma TakeKeeps(s: State, capacity: nat)
    requires Inv(s) && Enabled(s, TakeBatch)
    ensures Inv(Step(s, TakeBatch, capacity))
  {
    var t := Step(s, TakeBatch, capacity);
    FlatAppend(s.taken, s.sh.buffered.blockList);
    assert t.taken[..|s.taken|] == s.taken;
    assert FlushOk(s.flushes[s.flusher.thread], s.sh);
    CallsMono(s, t.sh, t.order);
  }

  lemma WakeKeeps(s: State, capacity: nat)
    requires Inv(s) && Enabled(s, Wake)
    ensures Inv(Step(s, Wake, capacity))
  {
    CallsMono(s, Step(s, Wake, capacity).sh, s.order);
  }

  lemma FlushBeginKeeps(s: State, e: Event, capacity: nat)
    requires e.FlushBegin? && Inv(s) && Enabled(s, e)
    ensures Inv(Step(s, e, capacity))
  {
  }

  /** A flush ends: its caller is told, and told the truth. */
  lemma FinishKeeps(s: State, sh: Shared, ok: bool)
    requires s.flusher.Holds? && s.flusher.thread in s.flushes
    requires FlushesOk(s.flushes, sh)
    requires ok && !s.flushes[s.flusher.thread].retryOnly ==> s.flushes[s.flusher.thread].before <= sh.backing.Keys
    ensures FlushesOk(Finish(s, ok).flushes, sh)
  {
    assert FlushOk(s.flushes[s.flusher.thread], sh);
  }

  lemma FlushLockKeeps(s: State, e: Event, capacity: nat)
    requires e.FlushLock? && Inv(s) && Enabled(s, e)
    ensures Inv(Step(s, e, capacity))
  {
    var held := s.(flusher := Holds(e.thread, AtRetry));
    if !s.sh.flushErr && s.flushes[e.thread].retryOnly {
      FinishKeeps(held, s.sh, true);
    }
  }

  /** Once the batch in flight is stored, all batches are. */
  lemma LastStored(sh: Shared, taken: seq<seq<Blk>>)
    requires OneInFlight(sh, taken) && Stored(sh.flushing.blockList, sh.backing)
    ensures AllStored(taken, sh.backing)
  {
    if taken != [] {
      var front := taken[..|taken| - 1];
      assert forall k | 0 <= k < |front| :: taken[k] == front[k];
    }
  }

  lemma RetryReturnsKeeps(s: State, e: Event, capacity: nat)
    requires e.RetryReturns? && Inv(s) && Enabled(s, e)
    ensures Inv(Step(s, e, capacity))
  {
    var r := s.(sh := s.sh.(flushErr := !e.ok));
    CallsMono(s, r.sh, r.order);
    if e.ok {
      LastStored(s.sh, s.taken);
    }
    if !e.ok || s.flushes[s.flusher.thread].retryOnly {
      FinishKeeps(r, r.sh, e.ok);
    }
  }

  lemma PutReturnsKeeps(s: State, e: Event, capacity: nat)
    requires e.PutReturns? && Inv(s) && Enabled(s, e)
    ensures Inv(Step(s, e, capacity))
  {
    var r := s.(sh := s.sh.(flushErr := !e.ok));
    CallsMono(s, r.sh, r.order);
    if e.ok {
      LastStored(s.sh, s.taken);
    } else {
      FinishKeeps(r, r.sh, false);
    }
  }

  lemma ResetKeeps(s: State, capacity: nat)
    requires Inv(s) && Enabled(s, ResetBatch)
    ensures Inv(Step(s, ResetBatch, capacity))
  {
    var r := s.(sh := s.sh.(flushing := EMPTY));
    CallsMono(s, r.sh, r.order);
    AllTakenStored(s.taken, s.sh.backing);
    assert s.taken != [] ==> Stored(s.taken[|s.taken| - 1], s.sh.backing);
    FinishKeeps(r, r.sh, true);
  }

  lemma AnsweringKeeps(s: State, t: Thread, pc: GetPc)
    requires Inv(s) && t in s.gets && GetOk(s.gets[t].(pc := pc), s.sh, s.initial, s.order)
    ensures Inv(Answering(s, t, pc))
  {
  }

  lemma ReadKeeps(s: State, t: Thread, fault: bool, otherwise: GetPc)
    requires Inv(s) && t in s.gets
    requires s.gets[t].cid !in s.sh.backing ==> GetOk(s.gets[t].(pc := otherwise), s.sh, s.initial, s.order)
    ensures Inv(ReadBacking(s, t, fault, otherwise))
  {
    var g := s.gets[t];
    assert GetOk(g, s.sh, s.initial, s.order);
    if fault {
      AnsweringKeeps(s, t, Answered(Failed));
    } else if g.cid in s.sh.backing {
      AnsweringKeeps(s, t, Answered(Found(s.sh.backing[g.cid])));
    } else {
      AnsweringKeeps(s, t, otherwise);
    }
  }

  /** The heart of the matter: after the locked look-up has failed, the block can only be in the backing store. */
  lemma GetLockedKeeps(s: State, e: Event, capacity: nat)
    requires e.GetLocked? && Inv(s) && Enabled(s, e)
    ensures Inv(Step(s, e, capacity))
  {
    var g := s.gets[e.thread];
    assert GetOk(g, s.sh, s.initial, s.order);
    if g.cid in s.sh.addedCids {
      NothingLost(s, g.cid);
    }
    if g.cid in s.sh.flushing.blockMap {
      InFlat(s.taken, s.sh.flushing.blockMap[g.cid]);
    }
    var hit := LookUp(s.sh, g.cid);
    AnsweringKeeps(s, e.thread, if hit.Some? then Answered(Found(hit.value)) else AtLast);
  }

  lemma GetReadKeeps(s: State, e: Event, capacity: nat)
    requires (e.GetFirst? || e.GetLast?) && Inv(s) && Enabled(s, e)
    ensures Inv(Step(s, e, capacity))
  {
    assert GetOk(s.gets[e.thread], s.sh, s.initial, s.order);
    ReadKeeps(s, e.thread, e.fault, if e.GetFirst? then AtLocked else Answered(NotFound));
  }

  lemma GetBeginKeeps(s: State, e: Event, capacity: nat)
    requires e.GetBegin? && Inv(s) && Enabled(s, e)
    ensures Inv(Step(s, e, capacity))
  {
    var t := Step(s, e, capacity);
    assert GetOk(t.gets[e.thread], s.sh, s.initial, s.order);
  }

  /** Every step keeps the invariant. */
  lemma StepKeeps(s: State, e: Event, capacity: nat)
    requires Inv(s) && Enabled(s, e)
    ensures Inv(Step(s, e, capacity))
  {
    match e
    case Put(blk) => PutKeeps(s, blk, capacity);
    case StoreOne(i) => StoreKeeps(s, i, capacity);
    case TakeBatch => TakeKeeps(s, capacity);
    case FlushBegin(_, _) => FlushBeginKeeps(s, e, capacity);
    case FlushLock(_) => FlushLockKeeps(s, e, capacity);
    case RetryReturns(_) => RetryReturnsKeeps(s, e, capacity);
    case PutReturns(_) => PutReturnsKeeps(s, e, capacity);
    case ResetBatch => ResetKeeps(s, capacity);
    case Wake => WakeKeeps(s, capacity);
    case GetBegin(_, _) => GetBeginKeeps(s, e, capacity);
    case GetFirst(_, _) => GetReadKeeps(s, e, capacity);
    case GetLocked(_) => GetLockedKeeps(s, e, capacity);
    case GetLast(_, _) => GetReadKeeps(s, e, capacity);
  }

  /** A run from a backing store that files each block under its own CID. */
  ghost predicate Run(initial: map<Cid, Blk>, capacity: nat, es: seq<Event>, ss: seq<State>) {
    && (forall c | c in initial :: initial[c].cid == c)
    && RunOf(NextOf(capacity), Init(initial), es, ss)
  }

  ghost function NextOf(capacity: nat): (State, Event, State) -> bool {
    (s, e, t) => Next(s, e, capacity, t)
  }

  lemma RunNext(initial: map<Cid, Blk>, capacity: nat, es: seq<Event>, ss: seq<State>, i: nat)
    requires Run(initial, capacity, es, ss) && i < |es|
    ensures |ss| == |es| + 1 && Next(ss[i], es[i], capacity, ss[i + 1])
  {
    RunStep(NextOf(capacity), Init(initial), es, ss, i);
  }

  lemma {:induction false} RunsAreSafe(initial: map<Cid, Blk>, capacity: nat, es: seq<Event>, ss: seq<State>, i: nat)
    requires Run(initial, capacity, es, ss) && i < |ss|
    ensures Inv(ss[i])
  {
    if i > 0 {
      RunsAreSafe(initial, capacity, es, ss, i - 1);
      RunNext(initial, capacity, es, ss, i - 1);
      StepKeeps(ss[i - 1], es[i - 1], capacity);
    }
  }

  /** Calls stay what they are until they end, and what was put or stored stays so. */
  ghost predicate Later(s: State, t: State) {
    && s.sh.addedCids <= t.sh.addedCids && s.sh.backing.Keys <= t.sh.backing.Keys
    && SameFlushes(s.flushes, t.flushes) && SameGets(s.gets, t.gets)
  }

  lemma LaterTrans(s: State, t: State, u: State)
    requires Later(s, t) && Later(t, u)
    ensures Later(s, u)
  {
  }

  lemma StepIsLater(s: State, e: Event, capacity: nat)
    requires Enabled(s, e)
    ensures Later(s, Step(s, e, capacity))
  {
  }

  lemma {:induction false} RunIsLater(initial: map<Cid, Blk>, capacity: nat, es: seq<Event>, ss: seq<State>,
                                      m: nat, n: nat)
    requires Run(initial, capacity, es, ss) && m <= n < |ss|
    ensures Later(ss[m], ss[n])
    decreases n
  {
    if m < n {
      RunIsLater(initial, capacity, es, ss, m, n - 1);
      RunNext(initial, capacity, es, ss, n - 1);
      StepIsLater(ss[n - 1], es[n - 1], capacity);
      LaterTrans(ss[m], ss[n - 1], ss[n]);
    }
  }

  lemma PutIsAdded(initial: map<Cid, Blk>, capacity: nat, es: seq<Event>, ss: seq<State>, k: nat, j: nat)
    requires Run(initial, capacity, es, ss) && k < j < |es| && es[k].Put?
    ensures es[k].blk.cid in ss[j].sh.addedCids
  {
    RunNext(initial, capacity, es, ss, k);
    RunIsLater(initial, capacity, es, ss, k + 1, j);
  }

  /** In every run, a Get that starts after a Put of its CID never ends in "not found". */
  lemma GetFindsEarlierPut(initial: map<Cid, Blk>, capacity: nat, es: seq<Event>, ss: seq<State>,
                           k: nat, j: nat, n: nat)
    requires Run(initial, capacity, es, ss) && k < j < n < |ss|
    requires es[k].Put? && es[j].GetBegin? && es[j].cid == es[k].blk.cid
    ensures var g := ss[n].gets; es[j].thread in g && g[es[j].thread].pc != Answered(NotFound)
  {
    PutIsAdded(initial, capacity, es, ss, k, j);
    RunNext(initial, capacity, es, ss, j);
    RunIsLater(initial, capacity, es, ss, j + 1, n);
    RunsAreSafe(initial, capacity, es, ss, n);
    assert GetOk(ss[n].gets[es[j].thread], ss[n].sh, ss[n].initial, ss[n].order);
  }

  /** In every run, once a Flush has returned without error, all that was put before it is in the backing store. */
  lemma FlushIsDurable(initial: map<Cid, Blk>, capacity: nat, es: seq<Event>, ss: seq<State>, k: nat, j: nat, n: nat)
    requires Run(initial, capacity, es, ss) && k < j < n < |ss|
    requires es[k].Put? && es[j].FlushBegin? && !es[j].retryOnly
    ensures var f := ss[n].flushes;
            && es[j].thread in f
            && (f[es[j].thread].result == Some(true) ==> es[k].blk.cid in ss[n].sh.backing)
  {
    PutIsAdded(initial, capacity, es, ss, k, j);
    RunNext(initial, capacity, es, ss, j);
    RunIsLater(initial, capacity, es, ss, j + 1, n);
    RunsAreSafe(initial, capacity, es, ss, n);
    assert FlushOk(ss[n].flushes[es[j].thread], ss[n].sh);
  }

  /** The blocks of the first n events in order of first put. */
  ghost function FirstPuts(es: seq<Event>, n: nat): seq<Blk>
    requires n <= |es|
  {
    if n == 0 then [] else OrderAfter(FirstPuts(es, n - 1), es[n - 1])
  }

  ghost function OrderAfter(order: seq<Blk>, e: Event): seq<Blk> {
    if e.Put? && e.blk.cid !in Cids(order) then order + [e.blk] else order
  }

  lemma StepOrder(s: State, e: Event, capacity: nat)
    requires Inv(s) && Enabled(s, e)
    ensures Step(s, e, capacity).order == OrderAfter(s.order, e)
  {
    assert s.sh.addedCids == Cids(s.order);
  }

  lemma RunOrder(initial: map<Cid, Blk>, capacity: nat, es: seq<Event>, ss: seq<State>, i: nat)
    requires Run(initial, capacity, es, ss) && i < |es|
    ensures |ss| == |es| + 1 && ss[i + 1].order == OrderAfter(ss[i].order, es[i])
  {
    RunsAreSafe(initial, capacity, es, ss, i);
    RunNext(initial, capacity, es, ss, i);
    StepOrder(ss[i], es[i], capacity);
  }

  /** In every run the batches taken, followed by the buffer, are the first puts in order; and whenever a
      batch is taken, all earlier ones are complete in the backing store. */
  lemma {:induction false} BatchesFollowPuts(initial: map<Cid, Blk>, capacity: nat, es: seq<Event>, ss: seq<State>,
                                             n: nat)
    requires Run(initial, capacity, es, ss) && n < |ss|
    ensures Flat(ss[n].taken) + ss[n].sh.buffered.blockList == FirstPuts(es, n) && Distinct(FirstPuts(es, n))
    ensures n < |es| && es[n] == TakeBatch ==> AllStored(ss[n].taken, ss[n].sh.backing)
  {
    OrderIsFirstPuts(initial, capacity, es, ss, n);
    RunsAreSafe(initial, capacity, es, ss, n);
    if n < |es| {
      RunNext(initial, capacity, es, ss, n);
    }
  }

  lemma {:induction false} OrderIsFirstPuts(initial: map<Cid, Blk>, capacity: nat, es: seq<Event>, ss: seq<State>,
                                            n: nat)
    requires Run(initial, capacity, es, ss) && n < |ss|
    ensures ss[n].order == FirstPuts(es, n)
  {
    if n > 0 {
      OrderIsFirstPuts(initial, capacity, es, ss, n - 1);
      RunOrder(initial, capacity, es, ss, n - 1);
    }
  }

  lemma {:induction false} TotalSizeSum(a: seq<Blk>, b: seq<Blk>)
    ensures TotalSize(a + b) == TotalSize(a) + TotalSize(b)
  {
    if b == [] {
      assert a + b == a;
    } else {
      TotalSizeSum(a, b[..|b| - 1]);
      assert (a + b)[..|a + b| - 1] == a + b[..|b| - 1];
    }
  }

  /** In every run the recorded buffer size is that of everything ever put, and so that of the current buffer if and
      only if the batches taken so far hold no data. */
  lemma BufferSizeExact(initial: map<Cid, Blk>, capacity: nat, es: seq<Event>, ss: seq<State>, n: nat)
    requires Run(initial, capacity, es, ss) && n < |ss|
    ensures ss[n].sh.bufferSize == TotalSize(FirstPuts(es, n))
    ensures ss[n].sh.bufferSize == TotalSize(ss[n].sh.buffered.blockList) <==> TotalSize(Flat(ss[n].taken)) == 0
  {
    RunsAreSafe(initial, capacity, es, ss, n);
    OrderIsFirstPuts(initial, capacity, es, ss, n);
    TotalSizeSum(Flat(ss[n].taken), ss[n].sh.buffered.blockList);
  }
}
