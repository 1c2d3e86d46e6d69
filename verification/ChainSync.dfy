/** Replaying collected headers with their messages, and a whole sync from head to validated chain. */
module ChainSync {
  import opened Outcomes
  import opened Tipsets
  import opened Forks
  import opened BadBlocks
  import opened Headers
  import opened HeaderProgress
  import opened FullTipsets

  datatype IterEnd = Completed | CallbackFailed | MessagesUnavailable | PersistFailed | Crashed

  /** The one full tipset for ts: every header with the messages its root commits to. */
  function FullOf(ts: TipSet): (r: FullTipSet)
    ensures FullFor(r, ts)
  {
    seq(|ts|, i requires 0 <= i < |ts| => FullBlock(ts[i], ts[i].messages.bls, ts[i].messages.secpk))
  }

  lemma FullForUnique(fts: FullTipSet, ts: TipSet)
    requires FullFor(fts, ts)
    ensures fts == FullOf(ts)
  {
    forall i | 0 <= i < |ts|
      ensures fts[i] == FullOf(ts)[i]
    {
    }
  }

  /** The headers of a full tipset. */
  function TipSetOf(fts: FullTipSet): Key {
    seq(|fts|, i requires 0 <= i < |fts| => fts[i].header)
  }

  function Roots(ts: TipSet): set<MsgRoot> {
    set b | b in ts :: b.messages
  }

  /** The messages of every block are in the store, so TryFillTipSet succeeds. */
  predicate HasMessages(stored: set<MsgRoot>, ts: TipSet) {
    Roots(ts) <= stored
  }

  /** The n-th call is for the n-th header from the end. */
  ghost predicate Replays(calls: seq<FullTipSet>, headers: seq<TipSet>) {
    && |calls| <= |headers|
    && forall k | 0 <= k < |calls| :: calls[k] == FullOf(headers[|headers| - 1 - k])
  }

  /** What the replay needs from outside: peers, the order in which the goroutines of each batch run, the
      verdicts of the callback and whether fetched messages could be written. */
  datatype Outside = Outside(peers: Peers,
                             order: (nat, nat) -> seq<nat>,
                             callback: (nat, FullTipSet) -> bool,
                             persist: nat -> bool)

  ghost predicate Schedules(o: Outside) {
    forall at, n :: Schedule(o.order(at, n), n)
  }

  /** The callback accepts the first n calls. */
  ghost predicate TakesUpTo(o: Outside, calls: seq<FullTipSet>, n: nat) {
    forall k | 0 <= k < n && k < |calls| :: o.callback(k, calls[k])
  }

  /** The callback accepts every header, the last one first, and every write of messages succeeds. */
  ghost predicate Willing(o: Outside, headers: seq<TipSet>) {
    && (forall calls | Replays(calls, headers) :: TakesUpTo(o, calls, |calls|))
    && (forall n :: o.persist(n))
  }

  /** Consecutive bundles for consecutive headers. */
  ghost predicate MatchFrom(headers: seq<TipSet>, at: nat, bundles: seq<Bundle>) {
    at + |bundles| <= |headers| && forall k | 0 <= k < |bundles| :: Matches(headers[at + k], bundles[k])
  }

  lemma SegmentMatches(headers: seq<TipSet>, at: nat, n: nat, bundles: seq<Bundle>)
    requires at + n <= |headers| && |bundles| == n && AllMatch(headers[at..at + n], bundles, n)
    ensures MatchFrom(headers, at, bundles)
  {
    forall k | 0 <= k < n
      ensures Matches(headers[at + k], bundles[k])
    {
      assert headers[at..at + n][k] == headers[at + k];
    }
  }

  /** Sixteen requests at once, for eight tipsets each. */
  const BATCH_SIZE: nat := 128

  /** The batch of headers whose messages are asked for when header i has none. */
  function BatchStart(i: nat): (at: nat)
    ensures at <= i && i + 1 - at <= 128 && (at > 0 ==> i + 1 - at == 128)
  {
    if i < BATCH_SIZE then 0 else i + 1 - BATCH_SIZE
  }

  /** Some request for the messages of headers[at..at + n] indexes its answer past the end. */
  ghost predicate PanicsIn(peers: Peers, headers: seq<TipSet>, at: nat, n: nat) {
    at + n <= |headers| && SomePanic(peers, headers[at..at + n], at)
  }

  ghost predicate GoodIn(peers: Peers, headers: seq<TipSet>, at: nat, n: nat) {
    at + n <= |headers| && AllGood(peers, headers[at..at + n], at)
  }

  ghost predicate BatchPanics(peers: Peers, headers: seq<TipSet>, i: nat) {
    PanicsIn(peers, headers, BatchStart(i), i + 1 - BatchStart(i))
  }

  ghost predicate BatchGood(peers: Peers, headers: seq<TipSet>, i: nat) {
    GoodIn(peers, headers, BatchStart(i), i + 1 - BatchStart(i))
  }

  /** How a fetch of the messages of headers[at..at + n] ends: well if and only if every chunk does, out of range if
      and only if some chunk does, and if well with each bundle checked against its header. */
  ghost predicate FetchEnds(peers: Peers, headers: seq<TipSet>, at: nat, n: nat, r: Attempt) {
    && (r.Good? <==> GoodIn(peers, headers, at, n))
    && (r.IndexPanic? <==> PanicsIn(peers, headers, at, n))
    && (r.Good? ==> |r.bundles| == n && MatchFrom(headers, at, r.bundles))
  }

  method FetchSegment(o: Outside, headers: seq<TipSet>, startOffset: nat, batchSize: nat) returns (r: Attempt)
    requires Schedules(o) && startOffset + batchSize <= |headers|
    ensures FetchEnds(o.peers, headers, startOffset, batchSize, r)
  {
    var segment := headers[startOffset..startOffset + batchSize];
    r := FetchMessages(o.peers, segment, startOffset, o.order(startOffset, Chunks(|segment|)));
    if r.Good? {
      SegmentMatches(headers, startOffset, batchSize, r.bundles);
    }
  }

  /** Fetch the messages for the batch of headers that ends with header i. */
  method FetchBatch(o: Outside, headers: seq<TipSet>, i: nat) returns (r: Attempt)
    requires Schedules(o) && i < |headers|
    ensures FetchEnds(o.peers, headers, BatchStart(i), i + 1 - BatchStart(i), r)
  {
    var batchSize := BATCH_SIZE;
    if i < batchSize {
      batchSize := i + 1;
    }
    assert batchSize == i + 1 - BatchStart(i);
    r := FetchSegment(o, headers, i + 1 - batchSize, batchSize);
  }

  /** After n calls it is header i's turn, and its messages are not in the store. */
  predicate Lacks(headers: seq<TipSet>, stored: set<MsgRoot>, n: nat, i: nat) {
    n + i + 1 == |headers| && !HasMessages(stored, headers[i])
  }

  ghost predicate AllBatchesGood(peers: Peers, headers: seq<TipSet>) {
    forall i | 0 <= i < |headers| :: BatchGood(peers, headers, i)
  }

  /** Peers that answer the first request for any run of these headers in full and rightly. */
  ghost predicate Honest(peers: Peers, headers: seq<TipSet>) {
    forall at, lo, hi | 0 <= lo < hi <= |headers| ::
      var r := peers(at, 0, headers[lo..hi]); r.Some? && AnswerGood(headers[lo..hi], r.value)
  }

  lemma SliceOfSlice<T>(s: seq<T>, at: nat, n: nat, j: nat, m: nat)
    requires at + n <= |s| && j + m <= n
    ensures s[at..at + n][j..j + m] == s[at + j..at + j + m]
  {
    var a, b := s[at..at + n][j..j + m], s[at + j..at + j + m];
    assert |a| == |b| && forall k | 0 <= k < m :: a[k] == s[at..at + n][j + k] == s[at + j + k] == b[k];
  }

  lemma ChunkIsSlice(headers: seq<TipSet>, at: nat, n: nat, c: nat)
    requires at + n <= |headers| && c < Chunks(n)
    ensures var lo, chunk := at + ChunkStart(c), Chunk(headers[at..at + n], c);
            lo + |chunk| <= |headers| && chunk == headers[lo..lo + |chunk|]
  {
    var j, chunk := ChunkStart(c), Chunk(headers[at..at + n], c);
    assert chunk == headers[at..at + n][j..j + |chunk|];
    SliceOfSlice(headers, at, n, j, |chunk|);
  }

  lemma HonestSlice(peers: Peers, headers: seq<TipSet>, at: nat, lo: nat, hi: nat)
    requires Honest(peers, headers) && lo < hi <= |headers|
    ensures Attempts(peers, at, headers[lo..hi], 0).Good?
  {
    GoodFirst(peers, at, headers[lo..hi]);
  }

  lemma HonestChunk(peers: Peers, headers: seq<TipSet>, at: nat, n: nat, c: nat)
    requires Honest(peers, headers) && at + n <= |headers| && c < Chunks(n)
    ensures ChunkEnd(peers, headers[at..at + n], at, c).Good?
  {
    ChunkIsSlice(headers, at, n, c);
    var lo := at + ChunkStart(c);
    HonestSlice(peers, headers, lo, lo, lo + |Chunk(headers[at..at + n], c)|);
  }

  /** With such peers every batch is fetched. */
  lemma HonestBatches(peers: Peers, headers: seq<TipSet>)
    requires Honest(peers, headers)
    ensures AllBatchesGood(peers, headers)
  {
    forall i | 0 <= i < |headers|
      ensures BatchGood(peers, headers, i)
    {
      var at, n := BatchStart(i), i + 1 - BatchStart(i);
      var segment := headers[at..at + n];
      forall c | 0 <= c < Chunks(|segment|)
        ensures ChunkEnd(peers, segment, at, c).Good?
      {
        HonestChunk(peers, headers, at, n, c);
      }
    }
  }

  // -- how a replay goes

  /** Where the messages for a call come from: the store, a batch fetched for it, or the batch fetched before. */
  datatype Source = FromStore | FetchesBatch | FromBatch

  /** The message roots of headers[lo..hi]. */
  function RootsFrom(headers: seq<TipSet>, lo: nat, hi: nat): set<MsgRoot>
    requires lo <= hi <= |headers|
    decreases hi - lo
  {
    if lo == hi then {} else RootsFrom(headers, lo + 1, hi) + Roots(headers[lo])
  }

  function Repeat(n: nat): (s: seq<Source>)
    ensures |s| == n && forall k | 0 <= k < n :: s[k].FromBatch?
  {
    if n == 0 then [] else [FromBatch] + Repeat(n - 1)
  }

  /** How headers[..i] will be replayed, the last first: those with messages in the store from there, and any other with
      the batch that ends with it. */
  ghost function Plan(headers: seq<TipSet>, stored: set<MsgRoot>, i: nat): (plan: seq<Source>)
    requires i <= |headers|
    ensures |plan| == i
    decreases i
  {
    if i == 0 then []
    else if HasMessages(stored, headers[i - 1]) then [FromStore] + Plan(headers, stored, i - 1)
    else
      var at := BatchStart(i - 1);
      [FetchesBatch] + Repeat(i - 1 - at) + Plan(headers, stored + RootsFrom(headers, at, i), at)
  }

  /** What the first n calls leave in the store: what was there and, for every call with fetched messages, those. */
  ghost function Kept(headers: seq<TipSet>, had: set<MsgRoot>, plan: seq<Source>, n: nat): set<MsgRoot>
    requires n <= |plan| == |headers|
  {
    if n == 0 then had
    else Kept(headers, had, plan, n - 1) + if plan[n - 1].FromStore? then {} else Roots(headers[|headers| - n])
  }

  /** The messages for the k-th call were there or could be fetched. */
  ghost predicate Provided(o: Outside, headers: seq<TipSet>, plan: seq<Source>, k: nat)
    requires k < |plan| == |headers|
  {
    plan[k].FetchesBatch? ==> BatchGood(o.peers, headers, |headers| - 1 - k)
  }

  /** The k-th call is provided for and accepted, and fetched messages are written after it. */
  ghost predicate Well(o: Outside, headers: seq<TipSet>, plan: seq<Source>, calls: seq<FullTipSet>, k: nat)
    requires k < |calls| <= |plan| == |headers|
  {
    Provided(o, headers, plan, k) && o.callback(k, calls[k]) && (plan[k].FromStore? || o.persist(k + 1))
  }

  ghost predicate AllWell(o: Outside, headers: seq<TipSet>, plan: seq<Source>, calls: seq<FullTipSet>, n: nat)
    requires n <= |calls| <= |plan| == |headers|
  {
    forall k | 0 <= k < n :: Well(o, headers, plan, calls, k)
  }

  /** The end r of a replay is what became of its last call, or of the fetch after it, all before having gone well. */
  ghost predicate AsTold(o: Outside, headers: seq<TipSet>, plan: seq<Source>, calls: seq<FullTipSet>, r: IterEnd)
    requires |calls| <= |plan| == |headers|
  {
    var n := |calls|;
    match r
    case Completed => n == |headers| && AllWell(o, headers, plan, calls, n)
    case CallbackFailed =>
      && n > 0 && AllWell(o, headers, plan, calls, n - 1) && Provided(o, headers, plan, n - 1)
      && !o.callback(n - 1, calls[n - 1])
    case PersistFailed =>
      && n > 0 && AllWell(o, headers, plan, calls, n - 1) && Provided(o, headers, plan, n - 1)
      && o.callback(n - 1, calls[n - 1]) && !plan[n - 1].FromStore? && !o.persist(n)
    case MessagesUnavailable => StopsShort(o, headers, plan, calls) && !BatchPanics(o.peers, headers, |headers| - 1 - n)
    case Crashed => StopsShort(o, headers, plan, calls) && BatchPanics(o.peers, headers, |headers| - 1 - n)
  }

  /** All calls went well, and the batch for the next one cannot be fetched. */
  ghost predicate StopsShort(o: Outside, headers: seq<TipSet>, plan: seq<Source>, calls: seq<FullTipSet>)
    requires |calls| <= |plan| == |headers|
  {
    && |calls| < |headers| && AllWell(o, headers, plan, calls, |calls|)
    && plan[|calls|].FetchesBatch? && !BatchGood(o.peers, headers, |headers| - 1 - |calls|)
  }

  /** The calls that went well: all, unless the last one is what ended the replay. */
  function WellCalls(calls: seq<FullTipSet>, r: IterEnd): nat
    requires r.CallbackFailed? || r.PersistFailed? ==> |calls| > 0
  {
    if r.CallbackFailed? || r.PersistFailed? then |calls| - 1 else |calls|
  }

  lemma GotPast(o: Outside, headers: seq<TipSet>, plan: seq<Source>, calls: seq<FullTipSet>, r: IterEnd, k: nat)
    requires k < |calls| <= |plan| == |headers| && AsTold(o, headers, plan, calls, r)
    ensures Provided(o, headers, plan, k) && (k < |calls| - 1 ==> Well(o, headers, plan, calls, k))
  {
    assert k < WellCalls(calls, r) ==> Well(o, headers, plan, calls, k);
  }

  /** A replay whose last call, and the fetch after it, turn out well in another has come as far. */
  lemma NoReasonToStop(o: Outside, headers: seq<TipSet>, plan: seq<Source>, a: seq<FullTipSet>, r: IterEnd,
                       b: seq<FullTipSet>)
    requires |a| <= |plan| == |headers| && |b| <= |headers| && AsTold(o, headers, plan, a, r)
    requires 0 < |a| <= |b| ==> a[|a| - 1] == b[|a| - 1]
    requires 0 < |a| < |b| ==> Well(o, headers, plan, b, |a| - 1)
    requires |a| < |b| ==> Provided(o, headers, plan, |a|)
    ensures |a| >= |b|
  {
  }

  lemma NotSooner(o: Outside, headers: seq<TipSet>, plan: seq<Source>, a: seq<FullTipSet>, r: IterEnd,
                  b: seq<FullTipSet>, s: IterEnd)
    requires |plan| == |headers| && Replays(a, headers) && Replays(b, headers)
    requires AsTold(o, headers, plan, a, r) && AsTold(o, headers, plan, b, s)
    ensures |a| >= |b|
  {
    if |a| < |b| {
      GotPast(o, headers, plan, b, s, |a|);
    }
    if 0 < |a| < |b| {
      GotPast(o, headers, plan, b, s, |a| - 1);
    }
    NoReasonToStop(o, headers, plan, a, r, b);
  }

  /** Peers, callback and writes determine how far a replay gets and how it ends. */
  lemma OneOutcome(o: Outside, headers: seq<TipSet>, plan: seq<Source>, a: seq<FullTipSet>, r: IterEnd,
                   b: seq<FullTipSet>, s: IterEnd)
    requires |plan| == |headers| && Replays(a, headers) && Replays(b, headers)
    requires AsTold(o, headers, plan, a, r) && AsTold(o, headers, plan, b, s)
    ensures a == b && r == s
  {
    NotSooner(o, headers, plan, a, r, b, s);
    NotSooner(o, headers, plan, b, s, a, r);
    assert a == b;
    if |a| > 0 {
      assert r.Completed? || r.MessagesUnavailable? || r.Crashed? ==> Well(o, headers, plan, a, |a| - 1);
      assert s.Completed? || s.MessagesUnavailable? || s.Crashed? ==> Well(o, headers, plan, a, |a| - 1);
    }
  }

  /** A replay completes when the callback accepts all, every write succeeds and every batch is good. */
  lemma CompletesIfServed(o: Outside, headers: seq<TipSet>, plan: seq<Source>, calls: seq<FullTipSet>, r: IterEnd)
    requires |plan| == |headers| && Replays(calls, headers) && AsTold(o, headers, plan, calls, r)
    requires Willing(o, headers) && AllBatchesGood(o.peers, headers)
    ensures r.Completed?
  {
    assert TakesUpTo(o, calls, |calls|);
  }

  /** What a batch adds to the store. */
  lemma {:induction false} KeptBatch(headers: seq<TipSet>, had: set<MsgRoot>, plan: seq<Source>, lo: nat, hi: nat)
    requires lo <= hi <= |headers| == |plan| && forall k | |headers| - hi <= k < |headers| - lo :: !plan[k].FromStore?
    ensures Kept(headers, had, plan, |headers| - lo)
         == Kept(headers, had, plan, |headers| - hi) + RootsFrom(headers, lo, hi)
    decreases hi - lo
  {
    if lo < hi {
      KeptBatch(headers, had, plan, lo + 1, hi);
    }
  }

  lemma SplitPlan(plan: seq<Source>, n: nat, batch: seq<Source>, rest: seq<Source>)
    requires n <= |plan| && plan[n..] == batch + rest
    ensures (forall k | n <= k < n + |batch| :: plan[k] == batch[k - n]) && plan[n + |batch|..] == rest
  {
    assert forall k | n <= k < |plan| :: plan[k] == plan[n..][k - n];
    assert plan[n + |batch|..] == plan[n..][|batch|..] == rest;
  }

  /** How far a replay has got: these calls went well, and their messages are stored. */
  ghost predicate Upto(o: Outside, headers: seq<TipSet>, plan: seq<Source>, had: set<MsgRoot>, calls: seq<FullTipSet>,
                       stored: set<MsgRoot>)
    requires |plan| == |headers|
  {
    && Replays(calls, headers) && AllWell(o, headers, plan, calls, |calls|)
    && stored == Kept(headers, had, plan, |calls|) && had <= stored
    && forall k | |headers| - |calls| <= k < |headers| :: HasMessages(stored, headers[k])
  }

  /** How a replay has ended: as told, with what the calls that went well left in the store. */
  ghost predicate Ended(o: Outside, headers: seq<TipSet>, plan: seq<Source>, had: set<MsgRoot>, calls: seq<FullTipSet>,
                        stored: set<MsgRoot>, r: IterEnd)
    requires |plan| == |headers|
  {
    && Replays(calls, headers) && AsTold(o, headers, plan, calls, r)
    && stored == Kept(headers, had, plan, WellCalls(calls, r)) && had <= stored
    && (r.Completed? ==> forall k | 0 <= k < |headers| :: HasMessages(stored, headers[k]))
  }

  /** The header whose turn it is after these calls. */
  function TurnOf(headers: seq<TipSet>, calls: seq<FullTipSet>): TipSet
    requires |calls| < |headers|
  {
    headers[|headers| - 1 - |calls|]
  }

  lemma WellSoFar(o: Outside, headers: seq<TipSet>, plan: seq<Source>, calls: seq<FullTipSet>, fts: FullTipSet)
    requires |calls| < |plan| == |headers| && AllWell(o, headers, plan, calls, |calls|)
    ensures AllWell(o, headers, plan, calls + [fts], |calls|)
  {
    forall k | 0 <= k < |calls|
      ensures Well(o, headers, plan, calls + [fts], k)
    {
      assert Well(o, headers, plan, calls, k) && (calls + [fts])[k] == calls[k];
    }
  }

  /** One call more, and what becomes of it. */
  lemma OneCall(o: Outside, headers: seq<TipSet>, plan: seq<Source>, had: set<MsgRoot>, calls: seq<FullTipSet>,
                stored: set<MsgRoot>)
    requires |calls| < |plan| == |headers| && Upto(o, headers, plan, had, calls, stored)
    requires Provided(o, headers, plan, |calls|)
    requires plan[|calls|].FromStore? ==> HasMessages(stored, TurnOf(headers, calls))
    ensures var n, ts, fetched := |calls|, TurnOf(headers, calls), !plan[|calls|].FromStore?;
            var more := calls + [FullOf(ts)];
            if !o.callback(n, FullOf(ts)) then Ended(o, headers, plan, had, more, stored, CallbackFailed)
            else if fetched && !o.persist(n + 1) then Ended(o, headers, plan, had, more, stored, PersistFailed)
            else Upto(o, headers, plan, had, more, if fetched then stored + Roots(ts) else stored)
  {
    WellSoFar(o, headers, plan, calls, FullOf(TurnOf(headers, calls)));
  }

  lemma AllDone(o: Outside, headers: seq<TipSet>, plan: seq<Source>, had: set<MsgRoot>, calls: seq<FullTipSet>,
                stored: set<MsgRoot>)
    requires |calls| == |plan| == |headers| && Upto(o, headers, plan, had, calls, stored)
    ensures Ended(o, headers, plan, had, calls, stored, Completed)
  {
  }

  /** The next n calls, for which messages were fetched. */
  ghost predicate Batch(o: Outside, headers: seq<TipSet>, plan: seq<Source>, from: nat, n: nat) {
    from + n <= |plan| == |headers|
    && forall k | from <= k < from + n :: !plan[k].FromStore? && Provided(o, headers, plan, k)
  }

  lemma FetchedCall(o: Outside, headers: seq<TipSet>, plan: seq<Source>, had: set<MsgRoot>, from: nat, n: nat,
                    calls: seq<FullTipSet>, stored: set<MsgRoot>, ts: TipSet)
    requires Batch(o, headers, plan, from, n) && from <= |calls| < from + n && ts == TurnOf(headers, calls)
    requires Upto(o, headers, plan, had, calls, stored)
    ensures !o.callback(|calls|, FullOf(ts)) ==>
              Ended(o, headers, plan, had, calls + [FullOf(ts)], stored, CallbackFailed)
    ensures o.callback(|calls|, FullOf(ts)) && !o.persist(|calls| + 1) ==>
              Ended(o, headers, plan, had, calls + [FullOf(ts)], stored, PersistFailed)
    ensures o.callback(|calls|, FullOf(ts)) && o.persist(|calls| + 1) ==>
              Upto(o, headers, plan, had, calls + [FullOf(ts)], stored + Roots(ts))
  {
    OneCall(o, headers, plan, had, calls, stored);
  }

  /** The full tipset for the bsi-th header from the end of a fetched batch. */
  method ZipNext(headers: seq<TipSet>, i: nat, bstout: seq<Bundle>, bsi: nat) returns (fts: FullTipSet)
    requires bsi < |bstout| <= i + 1 <= |headers| && MatchFrom(headers, i + 1 - |bstout|, bstout)
    ensures fts == FullOf(headers[i - bsi])
  {
    var bstip := bstout[|bstout| - (bsi + 1)];
    assert Matches(headers[i - bsi], bstip);
    var zipped := ZipTipSetAndMessages(headers[i - bsi], bstip);
    fts := zipped.fts;
    FullForUnique(fts, headers[i - bsi]);
  }

  /** The callback on one header of a fetched batch, and the write after it. */
  method CallAndWrite(o: Outside, headers: seq<TipSet>, ts: TipSet, fts: FullTipSet, before: seq<FullTipSet>,
                      was: set<MsgRoot>, ghost plan: seq<Source>, ghost had: set<MsgRoot>, ghost from: nat,
                      ghost n: nat)
    returns (r: IterEnd, calls: seq<FullTipSet>, stored: set<MsgRoot>)
    requires Batch(o, headers, plan, from, n) && from <= |before| < from + n
    requires Upto(o, headers, plan, had, before, was) && ts == TurnOf(headers, before) && fts == FullOf(ts)
    ensures r.Completed? ==> |calls| == |before| + 1 && Upto(o, headers, plan, had, calls, stored)
    ensures !r.Completed? ==> Ended(o, headers, plan, had, calls, stored, r) && (r.CallbackFailed? || r.PersistFailed?)
  {
    FetchedCall(o, headers, plan, had, from, n, before, was, ts);
    calls := before + [fts];
    if !o.callback(|before|, fts) {
      return CallbackFailed, calls, was;
    }
    if !o.persist(|calls|) {
      return PersistFailed, calls, was;
    }
    return Completed, calls, was + Roots(ts);
  }

  /** The part of iterFullTipsets that works through one fetched batch, last header first. */
  method ReplayBatch(o: Outside, headers: seq<TipSet>, i: nat, bstout: seq<Bundle>, before: seq<FullTipSet>,
                     was: set<MsgRoot>, ghost plan: seq<Source>, ghost had: set<MsgRoot>)
    returns (r: IterEnd, calls: seq<FullTipSet>, stored: set<MsgRoot>)
    requires i < |headers| && |before| == |headers| - 1 - i
    requires 1 <= |bstout| <= i + 1 && MatchFrom(headers, i + 1 - |bstout|, bstout)
    requires Batch(o, headers, plan, |before|, |bstout|) && Upto(o, headers, plan, had, before, was)
    ensures r.Completed? ==> |calls| == |before| + |bstout| && Upto(o, headers, plan, had, calls, stored)
    ensures !r.Completed? ==> Ended(o, headers, plan, had, calls, stored, r) && (r.CallbackFailed? || r.PersistFailed?)
  {
    r, calls, stored := Completed, before, was;
    for bsi := 0 to |bstout|
      invariant r.Completed? && |calls| == |before| + bsi && Upto(o, headers, plan, had, calls, stored)
    {
      var fts := ZipNext(headers, i, bstout, bsi);
      r, calls, stored := CallAndWrite(o, headers, headers[i - bsi], fts, calls, stored, plan, had, |before|, |bstout|);
      if !r.Completed? {
        return;
      }
    }
  }

  /** A call with messages from the store. */
  lemma StoredCall(o: Outside, headers: seq<TipSet>, plan: seq<Source>, had: set<MsgRoot>, calls: seq<FullTipSet>,
                   stored: set<MsgRoot>, i: nat, fts: FullTipSet)
    requires |calls| + i + 1 == |headers| && OnPlan(headers, plan, stored, |calls|)
    requires HasMessages(stored, headers[i]) && fts == FullOf(headers[i]) && Upto(o, headers, plan, had, calls, stored)
    ensures !o.callback(|calls|, fts) ==> Ended(o, headers, plan, had, calls + [fts], stored, CallbackFailed)
    ensures o.callback(|calls|, fts) ==> Upto(o, headers, plan, had, calls + [fts], stored)
    ensures OnPlan(headers, plan, stored, |calls| + 1)
  {
    PlanGoesOn(headers, plan, stored, |calls|);
    OneCall(o, headers, plan, had, calls, stored);
  }

  /** What remains of the plan after n calls is the plan for what remains. */
  ghost predicate OnPlan(headers: seq<TipSet>, plan: seq<Source>, stored: set<MsgRoot>, n: nat) {
    n <= |plan| == |headers| && plan[n..] == Plan(headers, stored, |headers| - n)
  }

  lemma PlanGoesOn(headers: seq<TipSet>, plan: seq<Source>, stored: set<MsgRoot>, n: nat)
    requires n < |headers| && OnPlan(headers, plan, stored, n) && HasMessages(stored, headers[|headers| - 1 - n])
    ensures plan[n].FromStore? && OnPlan(headers, plan, stored, n + 1)
  {
    assert plan[n] == plan[n..][0] && plan[n + 1..] == plan[n..][1..];
  }

  /** The calls from the n-th to before the end-th are one fetched batch. */
  predicate BatchAt(plan: seq<Source>, n: nat, end: nat) {
    n < end <= |plan| && plan[n].FetchesBatch? && forall k | n < k < end :: plan[k].FromBatch?
  }

  /** The batch that ends with header i comes next, and then what is planned once that is written. */
  ghost predicate Ahead(headers: seq<TipSet>, plan: seq<Source>, was: set<MsgRoot>, n: nat, i: nat) {
    && n + i + 1 == |headers| && BatchAt(plan, n, |headers| - BatchStart(i))
    && OnPlan(headers, plan, was + RootsFrom(headers, BatchStart(i), i + 1), |headers| - BatchStart(i))
  }

  /** The plan for a header without messages. */
  lemma PlanOfBatch(headers: seq<TipSet>, plan: seq<Source>, was: set<MsgRoot>, n: nat, i: nat)
    requires OnPlan(headers, plan, was, n) && Lacks(headers, was, n, i)
    ensures Ahead(headers, plan, was, n, i)
  {
    var at := BatchStart(i);
    var batch := [FetchesBatch] + Repeat(i - at);
    SplitPlan(plan, n, batch, Plan(headers, was + RootsFrom(headers, at, i + 1), at));
  }

  lemma BatchPlanned(o: Outside, headers: seq<TipSet>, plan: seq<Source>, n: nat, i: nat)
    requires n + i + 1 == |headers| == |plan| && BatchAt(plan, n, |headers| - BatchStart(i))
    requires BatchGood(o.peers, headers, i)
    ensures Batch(o, headers, plan, n, i + 1 - BatchStart(i))
  {
    assert Provided(o, headers, plan, n);
    forall k | n <= k < |headers| - BatchStart(i)
      ensures !plan[k].FromStore? && Provided(o, headers, plan, k)
    {
      if k > n {
        assert plan[k].FromBatch?;
      }
    }
  }

  lemma SamePlan(headers: seq<TipSet>, plan: seq<Source>, a: set<MsgRoot>, b: set<MsgRoot>, n: nat)
    requires a == b && OnPlan(headers, plan, a, n)
    ensures OnPlan(headers, plan, b, n)
  {
  }

  /** A batch that went well leaves the rest of the plan. */
  lemma BatchGoesOn(headers: seq<TipSet>, plan: seq<Source>, had: set<MsgRoot>, was: set<MsgRoot>, n: nat, i: nat,
                    stored: set<MsgRoot>)
    requires Ahead(headers, plan, was, n, i) && was == Kept(headers, had, plan, n)
    requires stored == Kept(headers, had, plan, |headers| - BatchStart(i))
    ensures OnPlan(headers, plan, stored, |headers| - BatchStart(i))
  {
    var at := BatchStart(i);
    assert forall k | n <= k < |headers| - at :: !plan[k].FromStore?;
    KeptBatch(headers, had, plan, at, i + 1);
    SamePlan(headers, plan, was + RootsFrom(headers, at, i + 1), stored, |headers| - at);
  }

  lemma FetchFails(o: Outside, headers: seq<TipSet>, plan: seq<Source>, had: set<MsgRoot>, calls: seq<FullTipSet>,
                   was: set<MsgRoot>, i: nat, r: IterEnd)
    requires |plan| == |headers| == |calls| + i + 1 && plan[|calls|].FetchesBatch?
    requires Upto(o, headers, plan, had, calls, was) && !BatchGood(o.peers, headers, i)
    requires r == if BatchPanics(o.peers, headers, i) then Crashed else MessagesUnavailable
    ensures Ended(o, headers, plan, had, calls, was, r)
  {
    assert StopsShort(o, headers, plan, calls);
  }

  /** A whole batch, fetched for header i, and where it leaves the plan. */
  method ReplayWhole(o: Outside, headers: seq<TipSet>, i: nat, bstout: seq<Bundle>, before: seq<FullTipSet>,
                     was: set<MsgRoot>, ghost plan: seq<Source>, ghost had: set<MsgRoot>)
    returns (r: IterEnd, calls: seq<FullTipSet>, stored: set<MsgRoot>)
    requires Ahead(headers, plan, was, |before|, i) && Batch(o, headers, plan, |before|, i + 1 - BatchStart(i))
    requires Upto(o, headers, plan, had, before, was)
    requires |bstout| == i + 1 - BatchStart(i) && MatchFrom(headers, BatchStart(i), bstout)
    ensures r.Completed? ==> |before| < |calls| && Upto(o, headers, plan, had, calls, stored)
    ensures r.Completed? ==> OnPlan(headers, plan, stored, |calls|)
    ensures !r.Completed? ==> Ended(o, headers, plan, had, calls, stored, r)
  {
    r, calls, stored := ReplayBatch(o, headers, i, bstout, before, was, plan, had);
    if r.Completed? {
      BatchGoesOn(headers, plan, had, was, |before|, i, stored);
    }
  }

  /** The part of iterFullTipsets for a header without messages: fetch its batch and work through it. */
  method FetchAndReplay(o: Outside, headers: seq<TipSet>, i: nat, before: seq<FullTipSet>, was: set<MsgRoot>,
                        ghost plan: seq<Source>, ghost had: set<MsgRoot>)
    returns (r: IterEnd, calls: seq<FullTipSet>, stored: set<MsgRoot>)
    requires Schedules(o) && OnPlan(headers, plan, was, |before|) && Lacks(headers, was, |before|, i)
    requires Upto(o, headers, plan, had, before, was)
    ensures r.Completed? ==> |before| < |calls| && Upto(o, headers, plan, had, calls, stored)
    ensures r.Completed? ==> OnPlan(headers, plan, stored, |calls|)
    ensures !r.Completed? ==> Ended(o, headers, plan, had, calls, stored, r)
  {
    PlanOfBatch(headers, plan, was, |before|, i);
    var fetched := FetchBatch(o, headers, i);
    if !fetched.Good? {
      r, calls, stored := if fetched.IndexPanic? then Crashed else MessagesUnavailable, before, was;
      FetchFails(o, headers, plan, had, before, was, i, r);
      return;
    }
    BatchPlanned(o, headers, plan, |before|, i);
    r, calls, stored := ReplayWhole(o, headers, i, fetched.bundles, before, was, plan, had);
  }

  /** With all messages in the store nothing is fetched. */
  lemma {:induction false} NothingFetched(headers: seq<TipSet>, had: set<MsgRoot>, i: nat)
    requires i <= |headers| && forall ts | ts in headers :: HasMessages(had, ts)
    ensures forall k | 0 <= k < i :: Plan(headers, had, i)[k].FromStore?
  {
    if i > 0 {
      NothingFetched(headers, had, i - 1);
    }
  }

  lemma {:induction false} NothingWritten(headers: seq<TipSet>, had: set<MsgRoot>, plan: seq<Source>, n: nat)
    requires n <= |plan| == |headers| && forall k | 0 <= k < n :: plan[k].FromStore?
    ensures Kept(headers, had, plan, n) == had
  {
    if n > 0 {
      NothingWritten(headers, had, plan, n - 1);
    }
  }

  // -- the same in terms of blocks

  /** The messages of every block of every header are in the store. */
  predicate AllThere(headers: seq<TipSet>, stored: set<MsgRoot>) {
    forall ts, b | ts in headers && b in ts :: b.messages in stored
  }

  /** Some block of some header has these messages. */
  predicate OfSomeBlock(headers: seq<TipSet>, m: MsgRoot) {
    exists ts, b :: ts in headers && b in ts && b.messages == m
  }

  lemma HasMessagesIff(stored: set<MsgRoot>, ts: TipSet)
    ensures HasMessages(stored, ts) <==> forall b | b in ts :: b.messages in stored
  {
    if HasMessages(stored, ts) {
      forall b | b in ts
        ensures b.messages in stored
      {
        assert b.messages in Roots(ts);
      }
    }
  }

  /** The k-th of the first n calls is one with fetched messages, and those of this block are m. */
  predicate WritesBlock(headers: seq<TipSet>, plan: seq<Source>, n: nat, k: nat, b: Cid, m: MsgRoot) {
    k < n <= |plan| == |headers| && !plan[k].FromStore? && b in headers[|headers| - 1 - k] && b.messages == m
  }

  /** What is in the store after n calls was there before or belongs to a block whose messages were fetched. */
  lemma {:induction false} KeptExactly(headers: seq<TipSet>, had: set<MsgRoot>, plan: seq<Source>, n: nat, m: MsgRoot)
    requires n <= |plan| == |headers|
    ensures m in Kept(headers, had, plan, n)
            <==> m in had || exists k: nat, b :: WritesBlock(headers, plan, n, k, b, m)
  {
    if n > 0 {
      var p := n - 1;
      KeptExactly(headers, had, plan, p, m);
      if k: nat, b :| WritesBlock(headers, plan, n, k, b, m) {
        assert k < p ==> WritesBlock(headers, plan, p, k, b, m);
      }
      if k: nat, b :| WritesBlock(headers, plan, p, k, b, m) {
        assert WritesBlock(headers, plan, n, k, b, m);
      }
      if !plan[n - 1].FromStore? && m in Roots(headers[|headers| - n]) {
        var b :| b in headers[|headers| - n] && b.messages == m;
        assert WritesBlock(headers, plan, n, n - 1, b, m);
      }
    }
  }

  lemma KeptIsTheirs(headers: seq<TipSet>, had: set<MsgRoot>, plan: seq<Source>, n: nat)
    requires n <= |plan| == |headers|
    ensures forall m | m in Kept(headers, had, plan, n) :: m in had || OfSomeBlock(headers, m)
  {
    forall m | m in Kept(headers, had, plan, n)
      ensures m in had || OfSomeBlock(headers, m)
    {
      KeptExactly(headers, had, plan, n, m);
      if k: nat, b :| WritesBlock(headers, plan, n, k, b, m) {
        assert headers[|headers| - 1 - k] in headers;
      }
    }
  }

  lemma HaveIsThere(headers: seq<TipSet>, stored: set<MsgRoot>)
    requires forall k | 0 <= k < |headers| :: HasMessages(stored, headers[k])
    ensures AllThere(headers, stored)
  {
    forall ts, b | ts in headers && b in ts
      ensures b.messages in stored
    {
      HasMessagesIff(stored, ts);
    }
  }

  lemma EndedTheirs(o: Outside, headers: seq<TipSet>, plan: seq<Source>, had: set<MsgRoot>, calls: seq<FullTipSet>,
                    stored: set<MsgRoot>, r: IterEnd)
    requires |plan| == |headers| && Ended(o, headers, plan, had, calls, stored, r)
    ensures r.Completed? ==> AllThere(headers, stored)
    ensures forall m | m in stored :: m in had || OfSomeBlock(headers, m)
  {
    KeptIsTheirs(headers, had, plan, WellCalls(calls, r));
    if r.Completed? {
      HaveIsThere(headers, stored);
    }
  }

  /** The messages of all blocks of the header whose turn the n-th call is are in the store by then. */
  ghost predicate InStoreBy(headers: seq<TipSet>, had: set<MsgRoot>, plan: seq<Source>, n: nat)
    requires n < |plan| == |headers|
  {
    forall b | b in headers[|headers| - 1 - n] :: b.messages in Kept(headers, had, plan, n)
  }

  /** A call is served from the store exactly if all its messages are there; otherwise the batch that ends with its
      header is fetched, and the calls of that batch are the only ones that neither look nor fetch. */
  ghost predicate SourceIs(headers: seq<TipSet>, had: set<MsgRoot>, plan: seq<Source>, n: nat)
    requires n < |plan| == |headers|
  {
    match plan[n]
    case FromStore => InStoreBy(headers, had, plan, n)
    case FetchesBatch =>
      !InStoreBy(headers, had, plan, n) && BatchAt(plan, n, |headers| - BatchStart(|headers| - 1 - n))
    case FromBatch =>
      exists k: nat :: k < n && plan[k].FetchesBatch? && n < |headers| - BatchStart(|headers| - 1 - k)
  }

  lemma BatchSources(headers: seq<TipSet>, had: set<MsgRoot>, plan: seq<Source>, from: nat, n: nat)
    requires from < n < |headers| == |plan| && BatchAt(plan, from, |headers| - BatchStart(|headers| - 1 - from))
    requires n < |headers| - BatchStart(|headers| - 1 - from)
    ensures SourceIs(headers, had, plan, n)
  {
    assert plan[from].FetchesBatch? && plan[n].FromBatch?;
  }

  lemma StoreTurn(headers: seq<TipSet>, had: set<MsgRoot>, plan: seq<Source>, n: nat, was: set<MsgRoot>)
    requires n < |headers| == |plan| && was == Kept(headers, had, plan, n) && OnPlan(headers, plan, was, n)
    requires HasMessages(was, headers[|headers| - 1 - n])
    ensures SourceIs(headers, had, plan, n) && OnPlan(headers, plan, Kept(headers, had, plan, n + 1), n + 1)
  {
    HasMessagesIff(was, headers[|headers| - 1 - n]);
    PlanGoesOn(headers, plan, was, n);
    assert Kept(headers, had, plan, n + 1) == was;
    SamePlan(headers, plan, was, Kept(headers, had, plan, n + 1), n + 1);
  }

  lemma FetchTurnOf(headers: seq<TipSet>, had: set<MsgRoot>, plan: seq<Source>, n: nat, i: nat, was: set<MsgRoot>)
    requires n < |headers| == |plan| && was == Kept(headers, had, plan, n) && OnPlan(headers, plan, was, n)
    requires Lacks(headers, was, n, i)
    ensures SourceIs(headers, had, plan, n) && Ahead(headers, plan, was, n, i)
  {
    HasMessagesIff(was, headers[i]);
    PlanOfBatch(headers, plan, was, n, i);
  }

  lemma {:induction false} SourcesFrom(headers: seq<TipSet>, had: set<MsgRoot>, plan: seq<Source>, from: nat, n: nat,
                                       was: set<MsgRoot>)
    requires |plan| == |headers| && from <= n < |headers|
    requires was == Kept(headers, had, plan, from) && OnPlan(headers, plan, was, from)
    ensures SourceIs(headers, had, plan, n)
    decreases |headers| - from
  {
    var i := |headers| - 1 - from;
    if HasMessages(was, headers[i]) {
      StoreTurn(headers, had, plan, from, was);
      if n > from {
        SourcesFrom(headers, had, plan, from + 1, n, Kept(headers, had, plan, from + 1));
      }
    } else {
      FetchTurnOf(headers, had, plan, from, i, was);
      var end := |headers| - BatchStart(i);
      if from < n < end {
        BatchSources(headers, had, plan, from, n);
      } else if n >= end {
        var stored := Kept(headers, had, plan, end);
        BatchGoesOn(headers, plan, had, was, from, i, stored);
        SourcesFrom(headers, had, plan, end, n, stored);
      }
    }
  }

  /** Where the messages for every call of a replay come from. */
  lemma PlannedExactly(headers: seq<TipSet>, had: set<MsgRoot>, n: nat)
    requires n < |headers|
    ensures SourceIs(headers, had, Plan(headers, had, |headers|), n)
  {
    var plan := Plan(headers, had, |headers|);
    assert plan[0..] == plan;
    SourcesFrom(headers, had, plan, 0, n, had);
  }

  /** What a replay that ended as told comes to for willing peers and callbacks, and with all messages in the store. */
  lemma EndedWell(o: Outside, headers: seq<TipSet>, had: set<MsgRoot>, calls: seq<FullTipSet>, stored: set<MsgRoot>,
                  r: IterEnd)
    requires Ended(o, headers, Plan(headers, had, |headers|), had, calls, stored, r)
    ensures Willing(o, headers) && AllBatchesGood(o.peers, headers) ==> r.Completed?
    ensures (forall ts | ts in headers :: HasMessages(had, ts)) ==>
              stored == had && (r.Completed? || r.CallbackFailed?)
  {
    var plan := Plan(headers, had, |headers|);
    if Willing(o, headers) && AllBatchesGood(o.peers, headers) {
      CompletesIfServed(o, headers, plan, calls, r);
    }
    if forall ts | ts in headers :: HasMessages(had, ts) {
      NothingFetched(headers, had, |headers|);
      NothingWritten(headers, had, plan, WellCalls(calls, r));
    }
  }

  /** iterFullTipsets: the callback runs on the headers from the last to the first, each once and each with
      exactly its own messages, and a completed run leaves all messages in the store. */
  method IterFullTipsets(o: Outside, headers: seq<TipSet>, had: set<MsgRoot>)
    returns (r: IterEnd, calls: seq<FullTipSet>, stored: set<MsgRoot>)
    requires Schedules(o)
    ensures Ended(o, headers, Plan(headers, had, |headers|), had, calls, stored, r)
    ensures r.Completed? ==> AllThere(headers, stored)
    ensures forall m | m in stored :: m in had || OfSomeBlock(headers, m)
    ensures Willing(o, headers) && AllBatchesGood(o.peers, headers) ==> r.Completed?
    ensures (forall ts | ts in headers :: HasMessages(had, ts)) ==>
              stored == had && (r.Completed? || r.CallbackFailed?)
  {
    ghost var plan := Plan(headers, had, |headers|);
    r, calls, stored := Completed, [], had;
    var i := |headers| - 1;
    while i >= 0
      invariant r.Completed? && -1 <= i < |headers| && |calls| == |headers| - 1 - i
      invariant Upto(o, headers, plan, had, calls, stored) && OnPlan(headers, plan, stored, |calls|)
    {
      if HasMessages(stored, headers[i]) {
        var fts := FullOf(headers[i]);
        StoredCall(o, headers, plan, had, calls, stored, i, fts);
        var ok := o.callback(|calls|, fts);
        calls := calls + [fts];
        if !ok {
          r := CallbackFailed;
          break;
        }
        i := i - 1;
        continue;
      }
      r, calls, stored := FetchAndReplay(o, headers, i, calls, stored, plan, had);
      if !r.Completed? {
        break;
      }
      i := |headers| - 1 - |calls|;
    }
    if r.Completed? {
      AllDone(o, headers, plan, had, calls, stored);
    }
    EndedWell(o, headers, had, calls, stored, r);
    EndedTheirs(o, headers, plan, had, calls, stored, r);
  }

  /** Replaying a linked chain from its end validates every parent right before its child. */
  lemma ParentsFirst(calls: seq<FullTipSet>, headers: seq<TipSet>)
    requires Linked(headers) && Replays(calls, headers)
    ensures forall k | 0 < k < |calls| ::
              FormsTipSet(TipSetOf(calls[k])) && Parents(TipSetOf(calls[k])) == TipSetOf(calls[k - 1])
  {
    forall k | 0 <= k < |calls|
      ensures TipSetOf(calls[k]) == headers[|headers| - 1 - k]
    {
    }
  }

  datatype SyncEnd = Synced | NoHeaders(why: CollectError) | NotPersisted | NotValidated(end: IterEnd)

  /** A tipset validated with exactly its own messages, its headers and its messages stored. */
  predicate InPlace(fts: FullTipSet, local: set<TipSet>, stored: set<MsgRoot>) {
    var ts := TipSetOf(fts);
    FormsTipSet(ts) && fts == FullOf(ts) && ts in local && forall b | b in ts :: b.messages in stored
  }

  /** A complete replay of a linked, stored chain runs over all of it, parents first, in place. */
  lemma ReplayedInPlace(validated: seq<FullTipSet>, headers: seq<TipSet>, local: set<TipSet>, stored: set<MsgRoot>)
    requires |headers| > 0 && Linked(headers) && Replays(validated, headers) && |validated| == |headers|
    requires AllThere(headers, stored) && forall ts | ts in headers :: ts in local
    ensures TipSetOf(validated[|validated| - 1]) == headers[0] && TipSetOf(validated[0]) == Last(headers)
    ensures forall k | 0 <= k < |validated| :: InPlace(validated[k], local, stored)
    ensures forall k | 0 < k < |validated| :: Parents(TipSetOf(validated[k])) == TipSetOf(validated[k - 1])
  {
    ParentsFirst(validated, headers);
    forall k | 0 <= k < |validated|
      ensures TipSetOf(validated[k]) == headers[|headers| - 1 - k] && InPlace(validated[k], local, stored)
    {
      assert headers[|headers| - 1 - k] in headers;
    }
  }

  /** The writes before the n-th succeed, and that one, if there is one, fails. */
  predicate WrittenUpTo(headers: seq<TipSet>, persists: nat -> bool, n: nat) {
    n <= |headers| && (forall j | 0 <= j < n :: persists(j)) && (n < |headers| ==> !persists(n))
  }

  function Firsts(headers: seq<TipSet>, n: nat): set<TipSet>
    requires n <= |headers|
  {
    set j | 0 <= j < n :: headers[j]
  }

  method PersistHeaders(headers: seq<TipSet>, persists: nat -> bool, had: set<TipSet>)
    returns (ok: bool, local: set<TipSet>)
    ensures exists n :: WrittenUpTo(headers, persists, n) && local == had + Firsts(headers, n)
    ensures ok ==> local == had + Firsts(headers, |headers|)
    ensures ok <==> forall k | 0 <= k < |headers| :: persists(k)
  {
    local := had;
    for k := 0 to |headers|
      invariant (forall j | 0 <= j < k :: persists(j)) && local == had + Firsts(headers, k)
    {
      if !persists(k) {
        assert WrittenUpTo(headers, persists, k);
        return false, local;
      }
      assert Firsts(headers, k + 1) == Firsts(headers, k) + {headers[k]};
      local := local + {headers[k]};
    }
    assert WrittenUpTo(headers, persists, |headers|);
    return true, local;
  }

  function EndOf(r: SyncEnd): IterEnd
    requires r.Synced? || r.NotValidated?
  {
    if r.Synced? then Completed else r.end
  }

  /** How a sync over these headers ends: at a header that cannot be written, with those before it stored and nothing
      else done, or as the replay of all of them does. */
  ghost predicate SyncEnds(o: Outside, persists: nat -> bool, headers: seq<TipSet>, was: set<TipSet>, had: set<MsgRoot>,
                           r: SyncEnd, local: set<TipSet>, stored: set<MsgRoot>, validated: seq<FullTipSet>) {
    && (exists n :: WrittenUpTo(headers, persists, n) && local == was + Firsts(headers, n))
    && (r.NotPersisted? <==> exists k | 0 <= k < |headers| :: !persists(k))
    && (r.NotPersisted? ==> stored == had && validated == [])
    && (r.Synced? || r.NotValidated? ==>
          Ended(o, headers, Plan(headers, had, |headers|), had, validated, stored, EndOf(r)))
  }

  /** The part of collectChain after the headers are there: store them, then validate them oldest first. */
  method StoreAndReplay(o: Outside, persists: nat -> bool, headers: seq<TipSet>, was: set<TipSet>, had: set<MsgRoot>)
    returns (r: SyncEnd, local: set<TipSet>, stored: set<MsgRoot>, validated: seq<FullTipSet>)
    requires |headers| > 0 && Linked(headers) && Schedules(o)
    ensures was <= local && had <= stored && !r.NoHeaders? && (r.NotValidated? ==> !r.end.Completed?)
    ensures SyncEnds(o, persists, headers, was, had, r, local, stored, validated)
    ensures Willing(o, headers) && Honest(o.peers, headers) ==> r.Synced? || r.NotPersisted?
    ensures r.Synced? ==>
              && |validated| > 0
              && TipSetOf(validated[|validated| - 1]) == headers[0] && TipSetOf(validated[0]) == Last(headers)
              && (forall k | 0 <= k < |validated| :: InPlace(validated[k], local, stored))
              && (forall k | 0 < k < |validated| :: Parents(TipSetOf(validated[k])) == TipSetOf(validated[k - 1]))
  {
    stored, validated := had, [];
    var ok;
    ok, local := PersistHeaders(headers, persists, was);
    if !ok {
      return NotPersisted, local, stored, validated;
    }
    if Honest(o.peers, headers) {
      HonestBatches(o.peers, headers);
    }
    var end;
    end, validated, stored := IterFullTipsets(o, headers, stored);
    if !end.Completed? {
      return NotValidated(end), local, stored, validated;
    }
    ReplayedInPlace(validated, headers, local, stored);
    return Synced, local, stored, validated;
  }

  /** collectChain: collect the headers, store them, then validate them oldest first.  `persists(n)` says
      whether the n-th tipset could be written. */
  method CollectChain(env: Env, o: Outside, bad: BadBlockCache, persists: nat -> bool, had: set<MsgRoot>,
                      ts: TipSet, head: TipSet, ignoreCheckpoint: bool)
    returns (r: SyncEnd, local: set<TipSet>, stored: set<MsgRoot>, validated: seq<FullTipSet>)
    requires ts != head && Descending(head) && env.forkLengthThreshold >= 1 && Schedules(o) && bad.Valid()
    modifies bad
    ensures env.local <= local && had <= stored
    ensures r.Synced? ==>
              && |validated| > 0
              && TipSetOf(validated[|validated| - 1]) == ts
              && (forall k | 0 <= k < |validated| :: InPlace(validated[k], local, stored))
              && (forall k | 0 < k < |validated| :: Parents(TipSetOf(validated[k])) == TipSetOf(validated[k - 1]))
              && Meets(env, head, ignoreCheckpoint, TipSetOf(validated[0]))
    ensures bad.Valid() && bad.AllTraced() && old(bad.ops) <= bad.ops
    ensures var c := Collected(env, old(bad.badBlocks), ts, head, ignoreCheckpoint);
            && (r.NoHeaders? <==> c.None?)
            && (c.Some? ==> SyncEnds(o, persists, c.value, env.local, had, r, local, stored, validated))
            && (r.NotValidated? ==> !r.end.Completed?)
            && (c.Some? && Willing(o, c.value) && Honest(o.peers, c.value) ==> r.Synced? || r.NotPersisted?)
    ensures r.NoHeaders? ==>
              && r.why == ErrorOf(env, old(bad.badBlocks), ts, head, ignoreCheckpoint)
              && local == env.local && stored == had && validated == []
              && Marks(bad.ops) == old(Marks(bad.ops))
                                   + MarksOf(old(bad.badBlocks), ts, r.why,
                                             Accepting(env, old(bad.badBlocks), [ts], Height(head) + 1, 0))
              && NewlyDue(old(Marks(bad.ops)), Marks(bad.ops), old(bad.badBlocks), ts, r.why,
                          Accepting(env, old(bad.badBlocks), [ts], Height(head) + 1, 0))
    ensures !r.NoHeaders? ==> bad.badBlocks == old(bad.badBlocks) && bad.ops == old(bad.ops)
    ensures (exists n :: Forward(env, old(bad.badBlocks), ts, head, n)) ==> !r.NoHeaders?
  {
    ForwardIsCollected(env, bad.badBlocks, ts, head, ignoreCheckpoint);
    local, stored, validated := env.local, had, [];
    var collected := CollectHeaders(env, bad, ts, head, ignoreCheckpoint);
    if collected.Err? {
      return NoHeaders(collected.error), local, stored, validated;
    }
    r, local, stored, validated := StoreAndReplay(o, persists, collected.value, local, stored);
  }
}
