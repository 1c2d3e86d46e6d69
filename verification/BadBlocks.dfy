/** Why blocks are considered bad, and the cache that remembers it. */
module BadBlocks {
  import opened Outcomes
  import opened Tipsets

  datatype Why =
    | ManuallyMarked
    | FailedValidation
    | WrongBeaconOrder
    | ForkPastFinality
    | LinkedTo(block: Cid)
    | ChainContained(block: Cid)

  datatype BadBlockReason = BadBlockReason(reason: Why, tipset: seq<Cid>, original: Option<BadBlockReason>)

  function NewBadBlockReason(tipset: seq<Cid>, why: Why): BadBlockReason {
    BadBlockReason(why, tipset, None)
  }

  function LinkReason(r: BadBlockReason, why: Why): BadBlockReason {
    var root := if r.original.Some? then r.original.value else r;
    BadBlockReason(why, [], Some(root))
  }

  /** The reason a chain of links started from. */
  function Root(r: BadBlockReason): BadBlockReason {
    if r.original.Some? then Root(r.original.value) else r
  }

  /** At most one OriginalReason link deep. */
  predicate Shallow(r: BadBlockReason) {
    r.original.Some? ==> r.original.value.original.None?
  }

  function LinkAll(r: BadBlockReason, whys: seq<Why>): BadBlockReason
    decreases whys
  {
    if whys == [] then r else LinkAll(LinkReason(r, whys[0]), whys[1..])
  }

  /** However often a reason is linked on, it stays one link deep and still names where it started. */
  lemma {:induction false} LinkAllShallow(r: BadBlockReason, whys: seq<Why>)
    requires Shallow(r)
    ensures Shallow(LinkAll(r, whys)) && Root(LinkAll(r, whys)) == Root(r)
    decreases whys
  {
    if whys != [] {
      LinkAllShallow(LinkReason(r, whys[0]), whys[1..]);
    }
  }

  /** One change to the cache.  `Forget` is an eviction by the bounded cache. */
  datatype CacheOp =
    | Insert(block: Cid, reason: BadBlockReason)
    | Unmark(block: Cid)
    | Purge
    | Forget(blocks: set<Cid>)

  type Reasons = map<Cid, BadBlockReason>

  function ApplyOp(m: Reasons, op: CacheOp): Reasons {
    match op
    case Insert(b, r) => m[b := r]
    case Unmark(b) => m - {b}
    case Purge => map[]
    case Forget(bs) => m - bs
  }

  function RunOps(ops: seq<CacheOp>): Reasons {
    if ops == [] then map[] else ApplyOp(RunOps(ops[..|ops| - 1]), ops[|ops| - 1])
  }

  /** The reason was in the cache after the first j operations, under some block. */
  ghost predicate SeenAt(ops: seq<CacheOp>, r: BadBlockReason, j: nat, b: Cid) {
    j <= |ops| && b in RunOps(ops[..j]) && RunOps(ops[..j])[b] == r
  }

  ghost predicate Seen(ops: seq<CacheOp>, r: BadBlockReason) {
    exists j: nat, b: Cid :: SeenAt(ops, r, j, b)
  }

  /** How reasons are made: afresh, or by linking on a reason once read from the cache. */
  ghost predicate Proper(ops: seq<CacheOp>, r: BadBlockReason) {
    r.original.None? || exists from, why :: Seen(ops, from) && r == LinkReason(from, why)
  }

  ghost predicate AllProper(ops: seq<CacheOp>) {
    forall i | 0 <= i < |ops| && ops[i].Insert? :: Proper(ops[..i], ops[i].reason)
  }

  /** Some insertion gave this very reason, made afresh. */
  ghost predicate GivenBy(ops: seq<CacheOp>, r: BadBlockReason) {
    exists i | 0 <= i < |ops| :: ops[i].Insert? && ops[i].reason == r && r.original.None?
  }

  lemma SeenLater(ops: seq<CacheOp>, more: seq<CacheOp>, r: BadBlockReason)
    requires Seen(ops, r)
    ensures Seen(ops + more, r)
  {
    var j: nat, b: Cid :| SeenAt(ops, r, j, b);
    assert (ops + more)[..j] == ops[..j];
    assert SeenAt(ops + more, r, j, b);
  }

  lemma ProperLater(ops: seq<CacheOp>, more: seq<CacheOp>, r: BadBlockReason)
    requires Proper(ops, r)
    ensures Proper(ops + more, r)
  {
    if r.original.Some? {
      var from, why :| Seen(ops, from) && r == LinkReason(from, why);
      SeenLater(ops, more, from);
    }
  }

  lemma LinkIsProper(ops: seq<CacheOp>, b: Cid, why: Why)
    requires b in RunOps(ops)
    ensures Proper(ops, LinkReason(RunOps(ops)[b], why))
  {
    assert ops[..|ops|] == ops;
    assert SeenAt(ops, RunOps(ops)[b], |ops|, b);
  }

  lemma AllProperOn(ops: seq<CacheOp>, op: CacheOp)
    requires AllProper(ops) && (op.Insert? ==> Proper(ops, op.reason))
    ensures AllProper(ops + [op])
  {
    var more := ops + [op];
    forall i | 0 <= i < |more| && more[i].Insert?
      ensures Proper(more[..i], more[i].reason)
    {
      assert more[..i] == ops[..i];
      assert ops[..|ops|] == ops;
    }
  }

  lemma GivenLater(ops: seq<CacheOp>, n: nat, r: BadBlockReason)
    requires n <= |ops| && GivenBy(ops[..n], r)
    ensures GivenBy(ops, r)
  {
    var i :| 0 <= i < n && ops[..n][i].Insert? && ops[..n][i].reason == r;
    assert ops[i].Insert? && ops[i].reason == r;
  }

  lemma AllProperBefore(ops: seq<CacheOp>, n: nat)
    requires AllProper(ops) && n <= |ops|
    ensures AllProper(ops[..n])
  {
    forall i | 0 <= i < n && ops[..n][i].Insert?
      ensures Proper(ops[..n][..i], ops[..n][i].reason)
    {
      assert ops[..n][..i] == ops[..i];
    }
  }

  /** After any sequence of operations that insert only reasons made that way, every cached reason is at most one
      link deep, and its root is a reason some earlier insertion gave. */
  lemma {:induction false} CachedReasonsTraceBack(ops: seq<CacheOp>, b: Cid)
    requires AllProper(ops) && b in RunOps(ops)
    ensures Shallow(RunOps(ops)[b]) && GivenBy(ops, Root(RunOps(ops)[b]))
    decreases |ops|
  {
    var n := |ops| - 1;
    var op := ops[n];
    if op.Insert? && op.block == b {
      assert Proper(ops[..n], op.reason);
      if op.reason.original.None? {
        assert ops[n].Insert? && ops[n].reason == Root(op.reason);
      } else {
        var from, why :| Seen(ops[..n], from) && op.reason == LinkReason(from, why);
        SeenTracesBack(ops, n, from);
      }
    } else {
      AllProperBefore(ops, n);
      CachedReasonsTraceBack(ops[..n], b);
      GivenLater(ops, n, Root(RunOps(ops)[b]));
    }
  }

  /** The same of a reason that was read from the cache at any earlier moment. */
  lemma {:induction false} SeenTracesBack(ops: seq<CacheOp>, n: nat, r: BadBlockReason)
    requires n < |ops| && AllProper(ops) && Seen(ops[..n], r)
    ensures Shallow(r) && GivenBy(ops, Root(r))
    decreases |ops|, 0
  {
    var j: nat, b: Cid :| SeenAt(ops[..n], r, j, b);
    assert ops[..n][..j] == ops[..j];
    AllProperBefore(ops, j);
    CachedReasonsTraceBack(ops[..j], b);
    GivenLater(ops, j, Root(r));
  }

  /** A block marked bad, and why. */
  datatype Mark = Mark(block: Cid, reason: BadBlockReason)

  /** All marks ever made, in order. */
  function Marks(ops: seq<CacheOp>): seq<Mark> {
    if ops == [] then []
    else
      var op := ops[|ops| - 1];
      Marks(ops[..|ops| - 1]) + if op.Insert? then [Mark(op.block, op.reason)] else []
  }

  /** Each block marked once, for the same reason. */
  function MarkEach(cs: seq<Cid>, r: BadBlockReason): seq<Mark> {
    seq(|cs|, i requires 0 <= i < |cs| => Mark(cs[i], r))
  }

  lemma MarkNext(cs: seq<Cid>, i: nat, r: BadBlockReason)
    requires i < |cs|
    ensures MarkEach(cs[..i + 1], r) == MarkEach(cs[..i], r) + [Mark(cs[i], r)]
  {
  }

  lemma StillProper(ops: seq<CacheOp>, more: seq<CacheOp>, r: BadBlockReason)
    requires ops <= more && Proper(ops, r)
    ensures Proper(more, r)
  {
    assert more == ops + more[|ops|..];
    ProperLater(ops, more[|ops|..], r);
  }

  /** The cache.  `evicted(n)` is what the n-th insertion pushes out of the bounded cache; `ops` is its history. */
  class BadBlockCache {
    var badBlocks: Reasons
    var inserted: nat
    const evicted: nat -> set<Cid>
    ghost var ops: seq<CacheOp>

    /** The contents are what the history makes them. */
    ghost predicate Recorded()
      reads this
    {
      badBlocks == RunOps(ops)
    }

    ghost predicate Valid()
      reads this
    {
      Recorded() && AllProper(ops)
    }

    /** Every cached reason is at most one link deep and goes back to one that was inserted. */
    ghost predicate AllTraced()
      reads this
    {
      forall c | c in badBlocks :: Shallow(badBlocks[c]) && GivenBy(ops, Root(badBlocks[c]))
    }

    constructor (evicted: nat -> set<Cid>)
      ensures badBlocks == map[] && ops == [] && this.evicted == evicted && Valid()
    {
      badBlocks := map[];
      inserted := 0;
      this.evicted := evicted;
      ops := [];
    }

    lemma TracesBack()
      requires Valid()
      ensures AllTraced()
    {
      forall c | c in badBlocks
        ensures Shallow(badBlocks[c]) && GivenBy(ops, Root(badBlocks[c]))
      {
        CachedReasonsTraceBack(ops, c);
      }
    }

    /** Extends the history by an operation. */
    ghost method Record(op: CacheOp)
      modifies this`ops
      ensures ops == old(ops) + [op] && RunOps(ops) == ApplyOp(old(RunOps(ops)), op)
      ensures Marks(ops) == old(Marks(ops)) + if op.Insert? then [Mark(op.block, op.reason)] else []
      ensures old(AllProper(ops)) && (op.Insert? ==> Proper(old(ops), op.reason)) ==> AllProper(ops)
    {
      if AllProper(ops) && (op.Insert? ==> Proper(ops, op.reason)) {
        AllProperOn(ops, op);
      }
      assert (ops + [op])[..|ops|] == ops;
      ops := ops + [op];
    }

    method Add(c: Cid, r: BadBlockReason)
      requires Recorded()
      modifies this
      ensures badBlocks == (old(badBlocks) - evicted(old(inserted)))[c := r]
      ensures inserted == old(inserted) + 1
      ensures Recorded() && old(ops) <= ops && Marks(ops) == old(Marks(ops)) + [Mark(c, r)]
      ensures old(Valid()) && Proper(old(ops), r) ==> Valid()
    {
      if Proper(ops, r) {
        ProperLater(ops, [Forget(evicted(inserted))], r);
      }
      Record(Forget(evicted(inserted)));
      Record(Insert(c, r));
      badBlocks := (badBlocks - evicted(inserted))[c := r];
      inserted := inserted + 1;
    }

    method Remove(c: Cid)
      requires Recorded()
      modifies this`badBlocks, this`ops
      ensures c !in badBlocks && forall b | b != c :: MapAt(badBlocks, b) == MapAt(old(badBlocks), b)
      ensures Recorded() && old(ops) <= ops && (old(Valid()) ==> Valid())
    {
      badBlocks := badBlocks - {c};
      Record(Unmark(c));
    }

    method PurgeAll()
      requires Recorded()
      modifies this`badBlocks, this`ops
      ensures forall c :: c !in badBlocks
      ensures Recorded() && old(ops) <= ops && (old(Valid()) ==> Valid())
    {
      badBlocks := map[];
      Record(Purge);
    }

    /** Marks every block of a list, keeping all other entries except those evicted. */
    method AddAll(cs: seq<Cid>, r: BadBlockReason)
      requires Recorded()
      modifies this
      ensures forall c | c in badBlocks ::
                (c in cs && badBlocks[c] == r) || (c in old(badBlocks) && badBlocks[c] == old(badBlocks)[c])
      ensures Recorded() && old(ops) <= ops && Marks(ops) == old(Marks(ops)) + MarkEach(cs, r)
      ensures old(Valid()) && Proper(old(ops), r) ==> Valid()
    {
      for i := 0 to |cs|
        invariant forall c | c in badBlocks ::
            (c in cs && badBlocks[c] == r) || (c in old(badBlocks) && badBlocks[c] == old(badBlocks)[c])
        invariant Recorded() && old(ops) <= ops
        invariant Marks(ops) == old(Marks(ops)) + MarkEach(cs[..i], r)
        invariant old(Valid()) && Proper(old(ops), r) ==> Valid()
      {
        if Proper(old(ops), r) {
          StillProper(old(ops), ops, r);
        }
        Add(cs[i], r);
        MarkNext(cs, i, r);
      }
      assert cs[..|cs|] == cs;
    }
  }

  function MapAt(m: Reasons, b: Cid): Option<BadBlockReason> {
    if b in m then Some(m[b]) else None
  }
}
