/** Fetching the messages of collected headers and checking them against the headers. */
module FullTipsets {
  import opened Outcomes
  import opened Tipsets

  const I63: int := 0x8000_0000_0000_0000

  /** Message positions are uint64 on the wire. */
  type Position = n: int | 0 <= n < 2 * I63

  /** The conversion of a position to int: the upper half turns negative. */
  function AsInt(p: Position): int {
    if p < I63 then p else p - 2 * I63
  }

  /** No slice has 2^63 elements. */
  type Messages = s: seq<int> | |s| < I63

  /** CompactedMessages: the messages of a tipset, each named by its CID, and for
      every block the positions of the messages it includes. */
  datatype Bundle = Bundle(bls: Messages, secpk: Messages,
                           blsIncludes: seq<seq<Position>>, secpkIncludes: seq<seq<Position>>)

  datatype FullBlock = FullBlock(header: Block, bls: seq<int>, secpk: seq<int>)
  type FullTipSet = seq<FullBlock>

  const BLOCK_MESSAGE_LIMIT := 10000
  const SYNC_REQUEST_RETRIES := 5

  /** Peers' answers to message requests, by the position of the first header asked for and the attempt. */
  type Peers = (nat, nat, seq<TipSet>) -> Option<seq<Bundle>>

  predicate Within(at: seq<Position>, n: nat) {
    forall i | 0 <= i < |at| :: at[i] < n
  }

  /** The client's test of the positions of one block, made after the conversion. */
  predicate Passes(at: seq<Position>, n: nat) {
    forall i | 0 <= i < |at| :: AsInt(at[i]) < n
  }

  predicate AllPass(includes: seq<seq<Position>>, n: nat) {
    forall k | 0 <= k < |includes| :: Passes(includes[k], n)
  }

  predicate SameBlocks(ts: TipSet, b: Bundle) {
    |b.blsIncludes| == |ts| == |b.secpkIncludes|
  }

  /** What the exchange client checks of each bundle before handing it out. */
  predicate Accepted(ts: TipSet, b: Bundle) {
    SameBlocks(ts, b) && AllPass(b.blsIncludes, |b.bls|) && AllPass(b.secpkIncludes, |b.secpk|)
  }

  /** A position the conversion turns negative. */
  predicate High(at: seq<Position>) {
    exists i | 0 <= i < |at| :: at[i] >= I63
  }

  /** Positions that pass the client's test lie within the messages exactly when none of them is high. */
  lemma PassesWithin(at: seq<Position>, n: nat)
    requires n < I63 && Passes(at, n)
    ensures Within(at, n) <==> !High(at)
  {
    if i :| 0 <= i < |at| && at[i] >= I63 {
      assert at[i] >= n;
    } else {
      forall i | 0 <= i < |at|
        ensures at[i] < n
      {
        assert AsInt(at[i]) < n;
      }
    }
  }

  /** The exchange client: between one and as many bundles as asked for, a shorter answer being a partial one. */
  function GetChainMessages(peers: Peers, at: nat, retry: nat, headers: seq<TipSet>): (r: Option<seq<Bundle>>)
    ensures r.Some? ==>
              1 <= |r.value| <= |headers| && forall i | 0 <= i < |r.value| :: Accepted(headers[i], r.value[i])
  {
    match peers(at, retry, headers)
    case None => None
    case Some(bs) =>
      if 1 <= |bs| <= |headers| && forall i | 0 <= i < |bs| :: Accepted(headers[i], bs[i])
      then Some(bs) else None
  }

  function Pick(all: seq<int>, at: seq<Position>): (r: seq<int>)
    requires Within(at, |all|)
  {
    seq(|at|, i requires 0 <= i < |at| => all[at[i]])
  }

  /** A full tipset for ts: its headers, each with exactly the messages its root commits to. */
  ghost predicate FullFor(fts: FullTipSet, ts: TipSet) {
    && |fts| == |ts|
    && forall i | 0 <= i < |ts| :: fts[i].header == ts[i] && ts[i].messages == MsgRoot(fts[i].bls, fts[i].secpk)
  }

  /** How checking one block, or one tipset, against its messages ends. */
  datatype Check = Match | Mismatch | Panic

  predicate FewEnough(b: Bundle, i: nat)
    requires i < |b.blsIncludes| && i < |b.secpkIncludes|
  {
    |b.blsIncludes[i]| + |b.secpkIncludes[i]| <= BLOCK_MESSAGE_LIMIT
  }

  /** Block i's positions name messages, not too many, and those its root commits to. */
  predicate BlockMatches(ts: TipSet, b: Bundle, i: nat)
    requires SameBlocks(ts, b) && i < |ts|
  {
    && FewEnough(b, i)
    && Within(b.blsIncludes[i], |b.bls|) && Within(b.secpkIncludes[i], |b.secpk|)
    && ts[i].messages == MsgRoot(Pick(b.bls, b.blsIncludes[i]), Pick(b.secpk, b.secpkIncludes[i]))
  }

  /** Block i's positions are looked up, and one of them names no message. */
  predicate BlockPanics(b: Bundle, i: nat)
    requires i < |b.blsIncludes| && i < |b.secpkIncludes|
  {
    FewEnough(b, i) && !(Within(b.blsIncludes[i], |b.bls|) && Within(b.secpkIncludes[i], |b.secpk|))
  }

  predicate MatchesUpTo(ts: TipSet, b: Bundle, n: nat)
    requires SameBlocks(ts, b) && n <= |ts|
  {
    forall i | 0 <= i < n :: BlockMatches(ts, b, i)
  }

  /** The bundle holds, for every block of ts, not too many messages and those its root commits to. */
  predicate Matches(ts: TipSet, b: Bundle) {
    SameBlocks(ts, b) && MatchesUpTo(ts, b, |ts|)
  }

  /** The first block that does not match names a message that is not there. */
  predicate PanicsOn(ts: TipSet, b: Bundle) {
    SameBlocks(ts, b) && exists i | 0 <= i < |ts| :: MatchesUpTo(ts, b, i) && BlockPanics(b, i)
  }

  /** The same, as it looks in an accepted bundle: the first block that does not match holds a high position. */
  predicate HighOn(ts: TipSet, b: Bundle) {
    && SameBlocks(ts, b)
    && exists i | 0 <= i < |ts| ::
         MatchesUpTo(ts, b, i) && FewEnough(b, i) && (High(b.blsIncludes[i]) || High(b.secpkIncludes[i]))
  }

  lemma PanicsIffHigh(ts: TipSet, b: Bundle)
    requires Accepted(ts, b)
    ensures PanicsOn(ts, b) <==> HighOn(ts, b)
  {
    forall i | 0 <= i < |ts|
      ensures BlockPanics(b, i) <==> FewEnough(b, i) && (High(b.blsIncludes[i]) || High(b.secpkIncludes[i]))
    {
      PassesWithin(b.blsIncludes[i], |b.bls|);
      PassesWithin(b.secpkIncludes[i], |b.secpk|);
    }
  }

  /** The messages at these positions, in order. */
  ghost predicate Picked(all: seq<int>, at: seq<Position>, found: seq<int>) {
    |found| == |at| && forall i | 0 <= i < |at| :: at[i] < |all| && found[i] == all[at[i]]
  }

  /** A bundle matches exactly if every block has one list of positions of each kind, of at most 10000 in all, that name
      the messages its root commits to. */
  lemma MatchesExactly(ts: TipSet, b: Bundle)
    ensures Matches(ts, b)
            <==> && |b.blsIncludes| == |ts| && |b.secpkIncludes| == |ts|
                 && forall i | 0 <= i < |ts| ::
                      && |b.blsIncludes[i]| + |b.secpkIncludes[i]| <= 10000
                      && Picked(b.bls, b.blsIncludes[i], ts[i].messages.bls)
                      && Picked(b.secpk, b.secpkIncludes[i], ts[i].messages.secpk)
  {
    if |b.blsIncludes| == |ts| && |b.secpkIncludes| == |ts| {
      forall i | 0 <= i < |ts|
        ensures BlockMatches(ts, b, i)
                <==> && |b.blsIncludes[i]| + |b.secpkIncludes[i]| <= 10000
                     && Picked(b.bls, b.blsIncludes[i], ts[i].messages.bls)
                     && Picked(b.secpk, b.secpkIncludes[i], ts[i].messages.secpk)
      {
        PickedIsPick(b.bls, b.blsIncludes[i], ts[i].messages.bls);
        PickedIsPick(b.secpk, b.secpkIncludes[i], ts[i].messages.secpk);
      }
    }
  }

  lemma PickedIsPick(all: seq<int>, at: seq<Position>, found: seq<int>)
    ensures Picked(all, at, found) <==> Within(at, |all|) && found == Pick(all, at)
  {
  }

  /** Looks up messages by position; nothing if one of the positions is out of range. */
  method LookUp(all: Messages, at: seq<Position>) returns (r: Option<seq<int>>)
    ensures r == if Within(at, |all|) then Some(Pick(all, at)) else None
  {
    var found: seq<int> := [];
    for k := 0 to |at|
      invariant Within(at[..k], |all|) && found == Pick(all, at[..k])
    {
      if at[k] >= |all| {
        return None;
      }
      found := found + [all[at[k]]];
    }
    assert at[..|at|] == at;
    return Some(found);
  }

  method CheckBlock(ts: TipSet, b: Bundle, i: nat) returns (r: Check)
    requires SameBlocks(ts, b) && i < |ts|
    ensures r.Match? <==> BlockMatches(ts, b, i)
    ensures r.Panic? <==> BlockPanics(b, i)
  {
    if |b.blsIncludes[i]| + |b.secpkIncludes[i]| > BLOCK_MESSAGE_LIMIT {
      return Mismatch;
    }
    var secpk := LookUp(b.secpk, b.secpkIncludes[i]);
    if secpk.None? {
      return Panic;
    }
    var bls := LookUp(b.bls, b.blsIncludes[i]);
    if bls.None? {
      return Panic;
    }
    r := if ts[i].messages == MsgRoot(bls.value, secpk.value) then Match else Mismatch;
  }

  method CheckMsgMeta(ts: TipSet, b: Bundle) returns (r: Check)
    requires SameBlocks(ts, b)
    ensures r.Match? <==> Matches(ts, b)
    ensures r.Panic? <==> PanicsOn(ts, b)
  {
    for bi := 0 to |ts|
      invariant MatchesUpTo(ts, b, bi) && forall i | 0 <= i < bi :: !BlockPanics(b, i)
    {
      r := CheckBlock(ts, b, bi);
      if !r.Match? {
        assert !BlockMatches(ts, b, bi);
        assert forall i | bi < i < |ts| :: !MatchesUpTo(ts, b, i);
        return;
      }
    }
    return Match;
  }

  datatype Zipped = Full(fts: FullTipSet) | Refused | ZipPanic

  method ZipTipSetAndMessages(ts: TipSet, b: Bundle) returns (r: Zipped)
    ensures r.Full? <==> Matches(ts, b)
    ensures r.ZipPanic? <==> PanicsOn(ts, b)
    ensures r.Full? ==> FullFor(r.fts, ts) && forall k | 0 <= k < |r.fts| :: |r.fts[k].bls| + |r.fts[k].secpk| <= 10000
  {
    if |ts| != |b.secpkIncludes| || |ts| != |b.blsIncludes| {
      return Refused;
    }
    var check := CheckMsgMeta(ts, b);
    if !check.Match? {
      return if check.Panic? then ZipPanic else Refused;
    }
    var fts: FullTipSet := [];
    for bi := 0 to |ts|
      invariant |fts| == bi
      invariant forall i | 0 <= i < bi :: fts[i].header == ts[i] && ts[i].messages == MsgRoot(fts[i].bls, fts[i].secpk)
      invariant forall i | 0 <= i < bi :: |fts[i].bls| + |fts[i].secpk| <= 10000
    {
      assert BlockMatches(ts, b, bi);
      fts := fts + [FullBlock(ts[bi], Pick(b.bls, b.blsIncludes[bi]), Pick(b.secpk, b.secpkIncludes[bi]))];
    }
    return Full(fts);
  }

  /** How a request for the messages of a run of headers ends. */
  datatype Attempt = Good(bundles: seq<Bundle>) | GaveUp | IndexPanic

  ghost predicate AllMatch(headers: seq<TipSet>, bs: seq<Bundle>, n: nat) {
    n <= |headers| && n <= |bs| && forall i | 0 <= i < n :: Matches(headers[i], bs[i])
  }

  /** An answer is good when it covers and matches every header. */
  ghost predicate AnswerGood(headers: seq<TipSet>, bs: seq<Bundle>) {
    |bs| == |headers| && AllMatch(headers, bs, |headers|)
  }

  /** The first header that has no matching bundle has none at all, or one with a position out of range. */
  ghost predicate AnswerPanics(headers: seq<TipSet>, bs: seq<Bundle>) {
    exists i | 0 <= i < |headers| :: AllMatch(headers, bs, i) && (i == |bs| || PanicsOn(headers[i], bs[i]))
  }

  ghost function Attempts(peers: Peers, at: nat, headers: seq<TipSet>, retry: nat): (r: Attempt)
    ensures r.Good? ==> AnswerGood(headers, r.bundles)
    decreases SYNC_REQUEST_RETRIES - retry
  {
    if retry >= SYNC_REQUEST_RETRIES then GaveUp
    else
      var answer := GetChainMessages(peers, at, retry, headers);
      if answer.Some? && AnswerGood(headers, answer.value) then Good(answer.value)
      else if answer.Some? && AnswerPanics(headers, answer.value) then IndexPanic
      else Attempts(peers, at, headers, retry + 1)
  }

  lemma MatchIsNoPanic(ts: TipSet, b: Bundle)
    requires Matches(ts, b)
    ensures !PanicsOn(ts, b)
  {
    forall i | 0 <= i < |ts|
      ensures !BlockPanics(b, i)
    {
      assert BlockMatches(ts, b, i);
    }
  }

  /** Goes through the headers asked for, indexing the answer; the result says which of the three ends this has. */
  method CheckAnswer(headers: seq<TipSet>, result: seq<Bundle>) returns (r: Check)
    requires |result| <= |headers| && forall i | 0 <= i < |result| :: Accepted(headers[i], result[i])
    ensures r.Match? <==> AnswerGood(headers, result)
    ensures r.Panic? <==> AnswerPanics(headers, result)
  {
    for index := 0 to |headers|
      invariant index <= |result| && AllMatch(headers, result, index)
      invariant forall i | 0 <= i < index :: i < |result| && !PanicsOn(headers[i], result[i])
    {
      if index >= |result| {
        return Panic;
      }
      r := CheckMsgMeta(headers[index], result[index]);
      if !r.Match? {
        assert forall i | index < i <= |headers| :: !AllMatch(headers, result, i);
        return;
      }
      MatchIsNoPanic(headers[index], result[index]);
    }
    return Match;
  }

  /** One goroutine's request with retries. */
  method RequestMessages(peers: Peers, at: nat, headers: seq<TipSet>) returns (r: Attempt)
    ensures r == Attempts(peers, at, headers, 0)
  {
    var retry := 0;
    while retry < SYNC_REQUEST_RETRIES
      invariant retry <= SYNC_REQUEST_RETRIES
      invariant Attempts(peers, at, headers, retry) == Attempts(peers, at, headers, 0)
    {
      var answer := GetChainMessages(peers, at, retry, headers);
      if answer.Some? {
        var check := CheckAnswer(headers, answer.value);
        if check.Panic? {
          return IndexPanic;
        }
        if check.Match? {
          return Good(answer.value);
        }
      }
      retry := retry + 1;
    }
    return GaveUp;
  }

  /** The goroutines of fetchMessages each take a chunk of consecutive headers. */
  function Chunks(n: nat): nat {
    (n + 7) / 8
  }

  /** A chunk has eight headers, but for the last, which may have fewer. */
  function ChunkStart(c: nat): nat {
    8 * c
  }

  function ChunkOf(i: nat): nat {
    i / 8
  }

  function InChunk(i: nat): nat {
    i % 8
  }

  function Chunk(headers: seq<TipSet>, c: nat): (r: seq<TipSet>)
    requires c < Chunks(|headers|)
    ensures 1 <= |r| <= 8
    ensures ChunkStart(c) + |r| <= |headers|
    ensures |r| < 8 ==> ChunkStart(c) + |r| == |headers|
  {
    var j := ChunkStart(c);
    var nreq := if j + 8 > |headers| then |headers| - j else 8;
    headers[j..j + nreq]
  }

  ghost function ChunkEnd(peers: Peers, headers: seq<TipSet>, startOffset: nat, c: nat): Attempt
    requires c < Chunks(|headers|)
  {
    Attempts(peers, startOffset + ChunkStart(c), Chunk(headers, c), 0)
  }

  ghost predicate SomePanic(peers: Peers, headers: seq<TipSet>, startOffset: nat) {
    exists c | 0 <= c < Chunks(|headers|) :: ChunkEnd(peers, headers, startOffset, c).IndexPanic?
  }

  ghost predicate AllGood(peers: Peers, headers: seq<TipSet>, startOffset: nat) {
    forall c | 0 <= c < Chunks(|headers|) :: ChunkEnd(peers, headers, startOffset, c).Good?
  }

  /** Any order in which the goroutines get hold of the mutex. */
  ghost predicate Schedule(order: seq<nat>, n: nat) {
    && (forall c | 0 <= c < n :: c in order)
    && (forall k | 0 <= k < |order| :: order[k] < n)
  }

  /** Header i belongs to chunk i / 8 and to no other. */
  lemma ChunkHolds(headers: seq<TipSet>, i: nat)
    requires i < |headers|
    ensures var c := ChunkOf(i);
            && c < Chunks(|headers|)
            && ChunkStart(c) <= i < ChunkStart(c) + |Chunk(headers, c)|
            && Chunk(headers, c)[InChunk(i)] == headers[i]
  {
  }

  lemma ChunkOwns(headers: seq<TipSet>, c: nat, i: nat)
    requires c < Chunks(|headers|) && i < |headers|
    ensures ChunkStart(c) <= i < ChunkStart(c) + |Chunk(headers, c)|
            <==> ChunkOf(i) == c
  {
  }

  /** The bundle the goroutine in charge of header i comes back with, if any. */
  ghost function BundleAt(peers: Peers, headers: seq<TipSet>, startOffset: nat, i: nat): (r: Option<Bundle>)
    requires i < |headers|
    ensures r.Some? ==> Matches(headers[i], r.value)
  {
    ChunkHolds(headers, i);
    match ChunkEnd(peers, headers, startOffset, ChunkOf(i))
    case Good(bundles) => Some(bundles[InChunk(i)])
    case _ => None
  }

  /** A chunk that succeeds gives the bundles of its own headers, at their own positions. */
  lemma ChunkGives(peers: Peers, headers: seq<TipSet>, startOffset: nat, c: nat, i: nat)
    requires c < Chunks(|headers|) && i < |headers| && ChunkEnd(peers, headers, startOffset, c).Good?
    ensures var j, bundles := ChunkStart(c), ChunkEnd(peers, headers, startOffset, c).bundles;
            && (ChunkOf(i) == c <==> j <= i < j + |bundles|)
            && (ChunkOf(i) == c ==> BundleAt(peers, headers, startOffset, i) == Some(bundles[i - j]))
  {
    ChunkOwns(headers, c, i);
  }

  /** Every bundle sits at the position of the header it was checked against. */
  ghost predicate Placed(peers: Peers, headers: seq<TipSet>, startOffset: nat, bundles: seq<Bundle>) {
    |bundles| == |headers| &&
    forall i | 0 <= i < |headers| :: Some(bundles[i]) == BundleAt(peers, headers, startOffset, i)
  }

  method CopyInto(batch: array<Option<Bundle>>, j: nat, bundles: seq<Bundle>)
    requires j + |bundles| <= batch.Length
    modifies batch
    ensures forall y | 0 <= y < batch.Length ::
              batch[y] == if j <= y < j + |bundles| then Some(bundles[y - j]) else old(batch[y])
  {
    for x := 0 to |bundles|
      invariant forall y | 0 <= y < batch.Length ::
          batch[y] == if j <= y < j + x then Some(bundles[y - j]) else old(batch[y])
    {
      batch[j + x] := Some(bundles[x]);
    }
  }

  /** One goroutine: request the chunk and, on success, put the bundles into its own part of the batch. */
  method RunChunk(peers: Peers, headers: seq<TipSet>, startOffset: nat, c: nat, batch: array<Option<Bundle>>)
    returns (r: Attempt)
    requires batch.Length == |headers| && c < Chunks(|headers|)
    modifies batch
    ensures r == ChunkEnd(peers, headers, startOffset, c)
    ensures forall i | 0 <= i < |headers| ::
              batch[i] == if ChunkOf(i) == c && r.Good?
                          then BundleAt(peers, headers, startOffset, i) else old(batch[i])
  {
    var j := ChunkStart(c);
    r := RequestMessages(peers, startOffset + j, Chunk(headers, c));
    if r.Good? {
      CopyInto(batch, j, r.bundles);
      forall i | 0 <= i < |headers|
        ensures batch[i] == if ChunkOf(i) == c
                            then BundleAt(peers, headers, startOffset, i) else old(batch[i])
      {
        ChunkGives(peers, headers, startOffset, c, i);
      }
    }
  }

  /** fetchMessages: whatever the order of the goroutines, it succeeds exactly when every chunk does, and
      position i then holds the bundle that was checked against header i. */
  method FetchMessages(peers: Peers, headers: seq<TipSet>, startOffset: nat, order: seq<nat>) returns (r: Attempt)
    requires Schedule(order, Chunks(|headers|))
    ensures r.Good? <==> AllGood(peers, headers, startOffset)
    ensures r.IndexPanic? <==> SomePanic(peers, headers, startOffset)
    ensures r.Good? ==> |r.bundles| == |headers| && Placed(peers, headers, startOffset, r.bundles)
    ensures r.Good? ==> AllMatch(headers, r.bundles, |headers|)
  {
    var batch := new Option<Bundle>[|headers|](i => None);
    var batchErr := false;
    for k := 0 to |order|
      invariant forall c | c in order[..k] :: !ChunkEnd(peers, headers, startOffset, c).IndexPanic?
      invariant batchErr <==> exists c | c in order[..k] :: ChunkEnd(peers, headers, startOffset, c).GaveUp?
      invariant forall i | 0 <= i < |headers| && ChunkOf(i) in order[..k] ::
          batch[i] == BundleAt(peers, headers, startOffset, i) || batchErr
    {
      assert order[..k + 1] == order[..k] + [order[k]];
      var end := RunChunk(peers, headers, startOffset, order[k], batch);
      if end.IndexPanic? {
        return IndexPanic;
      }
      if end.GaveUp? {
        batchErr := true;
      }
    }
    assert order[..|order|] == order;
    if batchErr {
      return GaveUp;
    }
    forall i | 0 <= i < |headers|
      ensures batch[i] == BundleAt(peers, headers, startOffset, i) && batch[i].Some?
    {
      ChunkHolds(headers, i);
    }
    var bundles := Assemble(batch[..]);
    return Good(bundles);
  }

  method Assemble(filled: seq<Option<Bundle>>) returns (bundles: seq<Bundle>)
    requires forall i | 0 <= i < |filled| :: filled[i].Some?
    ensures |bundles| == |filled| && forall i | 0 <= i < |filled| :: Some(bundles[i]) == filled[i]
  {
    bundles := [];
    for i := 0 to |filled|
      invariant |bundles| == i && forall y | 0 <= y < i :: Some(bundles[y]) == filled[y]
    {
      bundles := bundles + [filled[i].value];
    }
  }

  /** The answer ends before the headers do, or holds a high position, where all before it matches. */
  ghost predicate Overruns(headers: seq<TipSet>, bs: seq<Bundle>) {
    exists i | 0 <= i < |headers| :: AllMatch(headers, bs, i) && (i == |bs| || HighOn(headers[i], bs[i]))
  }

  /** Attempt n gets an answer that overruns. */
  ghost predicate OverrunsAt(peers: Peers, at: nat, headers: seq<TipSet>, n: nat) {
    var r := GetChainMessages(peers, at, n, headers);
    r.Some? && Overruns(headers, r.value)
  }

  ghost predicate GoodAt(peers: Peers, at: nat, headers: seq<TipSet>, n: nat) {
    var r := GetChainMessages(peers, at, n, headers);
    r.Some? && AnswerGood(headers, r.value)
  }

  /** Of the five attempts, n is the first from `retry` on to end as one of the two says, and it ends as the first. */
  ghost predicate FirstAt(p: nat -> bool, q: nat -> bool, retry: nat, n: nat) {
    retry <= n < 5 && p(n) && forall m | retry <= m < n :: !p(m) && !q(m)
  }

  lemma FirstShifts(p: nat -> bool, q: nat -> bool, retry: nat, next: nat)
    requires retry < 5 && next == retry + 1 && !(p(retry) && q(retry))
    ensures p(retry) ==> FirstAt(p, q, retry, retry)
    ensures q(retry) ==> !exists n :: FirstAt(p, q, retry, n)
    ensures !p(retry) && !q(retry) ==>
              ((exists n :: FirstAt(p, q, retry, n)) <==> (exists n :: FirstAt(p, q, next, n)))
  {
    if !p(retry) && !q(retry) {
      if n: nat :| FirstAt(p, q, retry, n) {
        assert FirstAt(p, q, next, n);
      }
      if n: nat :| FirstAt(p, q, next, n) {
        assert FirstAt(p, q, retry, n);
      }
    }
  }

  /** The attempts that get an answer that overruns. */
  ghost function Overrunning(peers: Peers, at: nat, headers: seq<TipSet>): nat -> bool {
    (n: nat) => OverrunsAt(peers, at, headers, n)
  }

  /** The attempts that get an answer that is right. */
  ghost function Answering(peers: Peers, at: nat, headers: seq<TipSet>): nat -> bool {
    (n: nat) => GoodAt(peers, at, headers, n)
  }

  lemma AnswerPanicsIffOverruns(headers: seq<TipSet>, bs: seq<Bundle>)
    requires |bs| <= |headers| && forall i | 0 <= i < |bs| :: Accepted(headers[i], bs[i])
    ensures AnswerPanics(headers, bs) <==> Overruns(headers, bs)
  {
    forall i | 0 <= i < |bs|
      ensures PanicsOn(headers[i], bs[i]) <==> HighOn(headers[i], bs[i])
    {
      PanicsIffHigh(headers[i], bs[i]);
    }
  }

  lemma GoodIsNoPanic(headers: seq<TipSet>, bs: seq<Bundle>)
    requires AnswerGood(headers, bs)
    ensures !AnswerPanics(headers, bs)
  {
    forall i | 0 <= i < |headers|
      ensures !PanicsOn(headers[i], bs[i])
    {
      MatchIsNoPanic(headers[i], bs[i]);
    }
  }

  /** What one attempt does, in those terms. */
  lemma OneAttempt(peers: Peers, at: nat, headers: seq<TipSet>, retry: nat)
    requires retry < SYNC_REQUEST_RETRIES
    ensures GoodAt(peers, at, headers, retry) ==>
              Attempts(peers, at, headers, retry).Good? && !OverrunsAt(peers, at, headers, retry)
    ensures OverrunsAt(peers, at, headers, retry) ==> Attempts(peers, at, headers, retry).IndexPanic?
    ensures !GoodAt(peers, at, headers, retry) && !OverrunsAt(peers, at, headers, retry) ==>
              Attempts(peers, at, headers, retry) == Attempts(peers, at, headers, retry + 1)
  {
    var r := GetChainMessages(peers, at, retry, headers);
    if r.Some? {
      AnswerPanicsIffOverruns(headers, r.value);
      if AnswerGood(headers, r.value) {
        GoodIsNoPanic(headers, r.value);
      }
    }
  }

  /** A bundle that matches passes the client's test. */
  lemma MatchingIsAccepted(ts: TipSet, b: Bundle)
    requires Matches(ts, b)
    ensures Accepted(ts, b)
  {
    forall i | 0 <= i < |ts|
      ensures Passes(b.blsIncludes[i], |b.bls|) && Passes(b.secpkIncludes[i], |b.secpk|)
    {
      assert BlockMatches(ts, b, i);
    }
  }

  /** Attempt n is answered well exactly when the peer's own answer covers and matches every header. */
  lemma GoodAtIffAnswered(peers: Peers, at: nat, headers: seq<TipSet>, n: nat)
    requires |headers| > 0
    ensures GoodAt(peers, at, headers, n)
            <==> peers(at, n, headers).Some? && AnswerGood(headers, peers(at, n, headers).value)
  {
    var r := peers(at, n, headers);
    if r.Some? && AnswerGood(headers, r.value) {
      forall i | 0 <= i < |r.value|
        ensures Accepted(headers[i], r.value[i])
      {
        MatchingIsAccepted(headers[i], r.value[i]);
      }
    }
  }

  /** A right first answer ends the request well. */
  lemma GoodFirst(peers: Peers, at: nat, headers: seq<TipSet>)
    requires |headers| > 0
    requires peers(at, 0, headers).Some? && AnswerGood(headers, peers(at, 0, headers).value)
    ensures Attempts(peers, at, headers, 0).Good?
  {
    GoodAtIffAnswered(peers, at, headers, 0);
    OneAttempt(peers, at, headers, 0);
  }

  /** Exactly when a request ends well: one of the five attempts is answered in full and rightly, all before it
      being unanswered or wrong without going out of range. */
  lemma {:induction false} SucceedsExactly(peers: Peers, at: nat, headers: seq<TipSet>, retry: nat)
    ensures Attempts(peers, at, headers, retry).Good?
            <==> exists n :: FirstAt(Answering(peers, at, headers), Overrunning(peers, at, headers), retry, n)
    decreases SYNC_REQUEST_RETRIES - retry
  {
    if retry < SYNC_REQUEST_RETRIES {
      OneAttempt(peers, at, headers, retry);
      FirstShifts(Answering(peers, at, headers), Overrunning(peers, at, headers), retry, retry + 1);
      SucceedsExactly(peers, at, headers, retry + 1);
    }
  }

  /** Exactly when a request goes out of range: in the first attempt whose answer is neither missing nor wrong, the
      answer ends short or holds a position of 2^63 or more, everything before it being right. */
  lemma {:induction false} PanicsExactly(peers: Peers, at: nat, headers: seq<TipSet>, retry: nat)
    ensures Attempts(peers, at, headers, retry).IndexPanic?
            <==> exists n :: FirstAt(Overrunning(peers, at, headers), Answering(peers, at, headers), retry, n)
    decreases SYNC_REQUEST_RETRIES - retry
  {
    if retry < SYNC_REQUEST_RETRIES {
      OneAttempt(peers, at, headers, retry);
      FirstShifts(Overrunning(peers, at, headers), Answering(peers, at, headers), retry, retry + 1);
      PanicsExactly(peers, at, headers, retry + 1);
    }
  }

  /** It can happen with a short answer: the right messages of the first of two tipsets only. */
  lemma ShortAnswerPanics(at: nat, a: TipSet, b: TipSet, m: Bundle)
    requires Matches(a, m)
    ensures var peers: Peers := (_, _, _) => Some([m]); Attempts(peers, at, [a, b], 0).IndexPanic?
  {
    var peers: Peers := (_, _, _) => Some([m]);
    MatchingIsAccepted(a, m);
    var r := GetChainMessages(peers, at, 0, [a, b]);
    assert r == Some([m]) && AllMatch([a, b], r.value, 1);
    assert AnswerPanics([a, b], r.value);
  }

  /** It can happen with a full answer: one bundle for one tipset of one block, with the position 2^63. */
  lemma HighPositionPanics(at: nat, a: TipSet)
    requires |a| == 1
    ensures var peers: Peers := (_, _, _) => Some([Bundle([], [], [[I63]], [[]])]);
            Attempts(peers, at, [a], 0).IndexPanic?
  {
    var m := Bundle([], [], [[I63]], [[]]);
    var peers: Peers := (_, _, _) => Some([m]);
    assert Passes([I63], 0) && Accepted(a, m);
    var r := GetChainMessages(peers, at, 0, [a]);
    assert r == Some([m]) && AllMatch([a], r.value, 0);
    assert m.blsIncludes[0][0] == I63 && BlockPanics(m, 0);
    assert !BlockMatches(a, m, 0) && !Matches([a][0], r.value[0]);
    assert PanicsOn(a, m) && AnswerPanics([a], r.value);
  }

  /** An answer for all the headers, none of its positions high. */
  ghost predicate FullAndLow(headers: seq<TipSet>, bs: seq<Bundle>) {
    && |bs| == |headers|
    && forall i, k | 0 <= i < |bs| && 0 <= k < |bs[i].blsIncludes| && k < |bs[i].secpkIncludes| ::
         !High(bs[i].blsIncludes[k]) && !High(bs[i].secpkIncludes[k])
  }

  /** It never happens with peers that answer in full and with positions below 2^63, or not at all. */
  lemma FullAnswersNeverPanic(peers: Peers, at: nat, headers: seq<TipSet>)
    requires forall n :: var r := GetChainMessages(peers, at, n, headers); r.Some? ==> FullAndLow(headers, r.value)
    ensures !Attempts(peers, at, headers, 0).IndexPanic?
  {
    PanicsExactly(peers, at, headers, 0);
    forall n | 0 <= n < SYNC_REQUEST_RETRIES
      ensures !OverrunsAt(peers, at, headers, n)
    {
      var r := GetChainMessages(peers, at, n, headers);
      if r.Some? {
        LowNeverOverruns(headers, r.value);
      }
    }
  }

  lemma LowNeverOverruns(headers: seq<TipSet>, bs: seq<Bundle>)
    requires FullAndLow(headers, bs)
    ensures !Overruns(headers, bs)
  {
  }
}
