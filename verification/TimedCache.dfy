/** The rotating cache (blockstore/timed.go) over two in-memory stores keyed by multihash (blockstore/mem.go). */
module TimedCache {
  import opened Outcomes

  type Multihash = nat
  type Codec = nat

  datatype Cid = Cid(version: nat, codec: Codec, hash: Multihash)

  /** The codec of every version-0 CID. */
  const DAG_PB: Codec := 0x70

  /** `basic` says whether the block already is of the library's basic kind, which is stored as it is. */
  datatype Block = Block(cid: Cid, data: seq<nat>, basic: bool)

  type Mem = map<Multihash, Block>

  datatype State = State(active: Mem, inactive: Mem)

  const EMPTY: State := State(map[], map[])

  function MemPut(m: Mem, b: Block): Mem {
    var k := b.cid.hash;
    if !b.basic && k in m then m else m[k := b.(basic := true)]
  }

  function MemPutMany(m: Mem, bs: seq<Block>): Mem {
    if bs == [] then m else MemPut(MemPutMany(m, bs[..|bs| - 1]), bs[|bs| - 1])
  }

  function Hashes(ks: seq<Cid>): set<Multihash> {
    set i | 0 <= i < |ks| :: ks[i].hash
  }

  /** The bytes asked for: under the key if its codec is another than that of the stored block, and otherwise the block
      as it was put. */
  function MemGet(m: Mem, k: Cid): Option<Block> {
    if k.hash !in m then None
    else if m[k.hash].cid.codec != k.codec then Some(Block(k, m[k.hash].data, true))
    else Some(m[k.hash])
  }

  function Get(s: State, k: Cid): Option<Block> {
    match MemGet(s.active, k)
    case Some(b) => Some(b)
    case None => MemGet(s.inactive, k)
  }

  predicate Has(s: State, k: Cid) {
    k.hash in s.active || k.hash in s.inactive
  }

  datatype Event = Put(block: Block) | Delete(key: Cid) | Rotate

  function Step(s: State, e: Event): State {
    match e
    case Put(b) => s.(active := MemPut(s.active, b))
    case Delete(k) => State(s.active - {k.hash}, s.inactive - {k.hash})
    case Rotate => State(map[], s.active)
  }

  function Run(es: seq<Event>): State {
    if es == [] then EMPTY else Step(Run(es[..|es| - 1]), es[|es| - 1])
  }

  function Rotations(es: seq<Event>): nat {
    if es == [] then 0 else Rotations(es[..|es| - 1]) + if es[|es| - 1].Rotate? then 1 else 0
  }

  predicate Deletes(e: Event, h: Multihash) {
    e.Delete? && e.key.hash == h
  }

  /** The i-th event put `h`, it was not deleted later, and there were `turns` rotations since. */
  predicate Kept(es: seq<Event>, h: Multihash, i: nat, turns: nat) {
    && i < |es| && es[i].Put? && es[i].block.cid.hash == h
    && (forall j | i < j < |es| :: !Deletes(es[j], h))
    && Rotations(es[i + 1..]) == turns
  }

  lemma KeptOn(es: seq<Event>, e: Event, h: Multihash, i: nat, turns: nat)
    requires i < |es|
    ensures Kept(es + [e], h, i, turns)
        <==> !Deletes(e, h) && if e.Rotate? then turns > 0 && Kept(es, h, i, turns - 1) else Kept(es, h, i, turns)
  {
    var more := es + [e];
    var tail := more[i + 1..];
    assert tail == es[i + 1..] + [e] && tail[..|tail| - 1] == es[i + 1..];
    assert Rotations(tail) == Rotations(es[i + 1..]) + if e.Rotate? then 1 else 0;
    if Kept(more, h, i, turns) {
      assert !Deletes(more[|es|], h);
      assert forall j | i < j < |es| :: more[j] == es[j];
    } else if !Deletes(e, h) {
      assert forall j | i < j < |more| :: j == |es| || more[j] == es[j];
    }
  }

  lemma KeptNow(es: seq<Event>, b: Block)
    ensures Kept(es + [Put(b)], b.cid.hash, |es|, 0)
  {
    assert (es + [Put(b)])[|es| + 1..] == [];
  }

  /** Of the puts of `h` in a period the last basic one wins, or the first of all if none is basic. */
  ghost predicate Wins(es: seq<Event>, h: Multihash, i: nat, turns: nat) {
    && Kept(es, h, i, turns)
    && forall j: nat | j != i && Kept(es, h, j, turns) ::
         if es[i].block.basic then j > i ==> !es[j].block.basic else j > i && !es[j].block.basic
  }

  /** Where a stored block comes from: the put that wins. */
  ghost predicate ComesFrom(es: seq<Event>, h: Multihash, turns: nat, b: Block) {
    exists i: nat :: Wins(es, h, i, turns) && es[i].block.cid == b.cid && es[i].block.data == b.data
  }

  ghost predicate Sourced(es: seq<Event>, m: Mem, turns: nat) {
    forall h | h in m :: ComesFrom(es, h, turns, m[h])
  }

  ghost predicate Complete(es: seq<Event>, m: Mem, turns: nat) {
    forall h, i: nat | Kept(es, h, i, turns) :: h in m
  }

  /** A put that takes the place of whatever was there. */
  lemma NewWins(es: seq<Event>, b: Block)
    requires b.basic || forall i: nat :: !Kept(es, b.cid.hash, i, 0)
    ensures ComesFrom(es + [Put(b)], b.cid.hash, 0, b)
  {
    var more, h := es + [Put(b)], b.cid.hash;
    KeptNow(es, b);
    forall j: nat | j != |es| && Kept(more, h, j, 0)
      ensures b.basic && j < |es|
    {
      KeptOn(es, Put(b), h, j, 0);
    }
    assert Wins(more, h, |es|, 0) && more[|es|].block == b;
  }

  /** Events that do not remove or replace what is stored leave its winner the winner. */
  lemma CarriedOver(es: seq<Event>, e: Event, h: Multihash, turns: nat, now: nat, b: Block)
    requires ComesFrom(es, h, turns, b) && !Deletes(e, h) && now == turns + if e.Rotate? then 1 else 0
    requires e.Put? && e.block.cid.hash == h && now == 0 ==> !e.block.basic
    ensures ComesFrom(es + [e], h, now, b)
  {
    var more := es + [e];
    var i: nat :| Wins(es, h, i, turns) && es[i].block.cid == b.cid && es[i].block.data == b.data;
    KeptOn(es, e, h, i, now);
    assert more[i] == es[i];
    forall j: nat | j != i && Kept(more, h, j, now)
      ensures if more[i].block.basic then j > i ==> !more[j].block.basic else j > i && !more[j].block.basic
    {
      if j < |es| {
        KeptOn(es, e, h, j, now);
        assert more[j] == es[j];
      } else {
        assert more[j] == e && now == 0 by { assert more[j + 1..] == []; }
      }
    }
    assert Wins(more, h, i, now);
  }

  lemma SourcedActive(front: seq<Event>, e: Event, s: State)
    requires Sourced(front, s.active, 0) && Complete(front, s.active, 0)
    ensures Sourced(front + [e], Step(s, e).active, 0)
  {
    var t := Step(s, e);
    forall h | h in t.active
      ensures ComesFrom(front + [e], h, 0, t.active[h])
    {
      if e.Put? && e.block.cid.hash == h && (e.block.basic || h !in s.active) {
        NewWins(front, e.block);
      } else {
        CarriedOver(front, e, h, 0, 0, s.active[h]);
      }
    }
  }

  lemma SourcedInactive(front: seq<Event>, e: Event, s: State)
    requires Sourced(front, s.active, 0) && Sourced(front, s.inactive, 1)
    ensures Sourced(front + [e], Step(s, e).inactive, 1)
  {
    var t := Step(s, e);
    forall h | h in t.inactive
      ensures ComesFrom(front + [e], h, 1, t.inactive[h])
    {
      if e.Rotate? {
        CarriedOver(front, e, h, 0, 1, s.active[h]);
      } else {
        CarriedOver(front, e, h, 1, 1, s.inactive[h]);
      }
    }
  }

  lemma {:induction false} SourcedOn(es: seq<Event>)
    ensures Sourced(es, Run(es).active, 0) && Sourced(es, Run(es).inactive, 1)
  {
    if es != [] {
      var front, e := es[..|es| - 1], es[|es| - 1];
      assert es == front + [e];
      SourcedOn(front);
      CompleteOn(front);
      SourcedActive(front, e, Run(front));
      SourcedInactive(front, e, Run(front));
    }
  }

  lemma {:induction false} CompleteOn(es: seq<Event>)
    ensures Complete(es, Run(es).active, 0) && Complete(es, Run(es).inactive, 1)
  {
    if es != [] {
      var front, e := es[..|es| - 1], es[|es| - 1];
      assert es == front + [e];
      CompleteOn(front);
      var s, t := Run(front), Run(es);
      forall h, i: nat | Kept(es, h, i, 0)
        ensures h in t.active
      {
        if i < |front| {
          KeptOn(front, e, h, i, 0);
          assert Kept(front, h, i, 0);
        }
      }
      forall h, i: nat | Kept(es, h, i, 1)
        ensures h in t.inactive
      {
        if i < |front| {
          KeptOn(front, e, h, i, 1);
          assert Kept(front, h, i, if e.Rotate? then 0 else 1);
        }
      }
    }
  }

  /** Put, and not deleted since, in the current rotation period or the one before. */
  ghost predicate Recent(es: seq<Event>, h: Multihash) {
    exists i: nat, turns: nat :: turns <= 1 && Kept(es, h, i, turns)
  }

  /** The put a read goes back to: the one that wins in the current period, or in the one before if there is none. */
  ghost predicate ReadFrom(es: seq<Event>, h: Multihash, i: nat) {
    Wins(es, h, i, 0) || (Wins(es, h, i, 1) && forall j: nat :: !Kept(es, h, j, 0))
  }

  lemma RecentIsStored(es: seq<Event>, h: Multihash)
    requires Recent(es, h)
    ensures h in Run(es).active || h in Run(es).inactive
  {
    CompleteOn(es);
    var i: nat, turns: nat :| turns <= 1 && Kept(es, h, i, turns);
    assert turns == 0 || turns == 1;
  }

  lemma OneWinner(es: seq<Event>, h: Multihash, i: nat, j: nat)
    requires ReadFrom(es, h, i) && ReadFrom(es, h, j)
    ensures i == j
  {
    assert Kept(es, h, i, 0) || Kept(es, h, i, 1);
  }

  /** What is read of a block that was put, under a key with its multihash. */
  function ReadAs(put: Block, k: Cid): Block {
    Block(if put.cid.codec != k.codec then k else put.cid, put.data, true)
  }

  lemma GoesBackTo(es: seq<Event>, m: Mem, turns: nat, k: Cid)
    requires Sourced(es, m, turns) && WellKeyed(m) && k.hash in m
    requires turns == 0 || (turns == 1 && forall j: nat :: !Kept(es, k.hash, j, 0))
    ensures exists i: nat :: ReadFrom(es, k.hash, i) && MemGet(m, k) == Some(ReadAs(es[i].block, k))
  {
    var h, b := k.hash, m[k.hash];
    assert ComesFrom(es, h, turns, b);
    var i: nat :| Wins(es, h, i, turns) && es[i].block.cid == b.cid && es[i].block.data == b.data;
    assert ReadFrom(es, h, i);
  }

  lemma StoredAsPut(es: seq<Event>, k: Cid)
    requires Has(Run(es), k)
    ensures exists i: nat :: ReadFrom(es, k.hash, i) && Get(Run(es), k) == Some(ReadAs(es[i].block, k))
  {
    var s := Run(es);
    SourcedOn(es);
    CompleteOn(es);
    BasicOn(es);
    if k.hash in s.active {
      GoesBackTo(es, s.active, 0, k);
    } else {
      GoesBackTo(es, s.inactive, 1, k);
    }
  }

  lemma {:induction false} BasicOn(es: seq<Event>)
    ensures WellKeyed(Run(es).active) && WellKeyed(Run(es).inactive)
  {
    if es != [] {
      BasicOn(es[..|es| - 1]);
    }
  }

  /** A block can be read exactly when its multihash is recent, and then it goes back to one put: what is read are the
      bytes of that put, under the key asked for if and only if the codecs differ or the versions are the same. */
  lemma ReadableIffRecent(es: seq<Event>, k: Cid)
    ensures Get(Run(es), k).Some? <==> Recent(es, k.hash)
    ensures Has(Run(es), k) <==> Recent(es, k.hash)
    ensures Recent(es, k.hash) ==> exists i: nat :: ReadFrom(es, k.hash, i)
    ensures forall i: nat | ReadFrom(es, k.hash, i) ::
              var put := es[i].block;
              && Get(Run(es), k) == Some(ReadAs(put, k))
              && (Get(Run(es), k).value.cid == k <==> put.cid.codec != k.codec || put.cid.version == k.version)
  {
    if Has(Run(es), k) {
      StoredAsPut(es, k);
    }
    if Recent(es, k.hash) {
      RecentIsStored(es, k.hash);
    }
    forall i: nat | ReadFrom(es, k.hash, i)
      ensures Recent(es, k.hash) && Get(Run(es), k) == Some(ReadAs(es[i].block, k))
    {
      assert Kept(es, k.hash, i, 0) || Kept(es, k.hash, i, 1);
      RecentIsStored(es, k.hash);
      var j: nat :| ReadFrom(es, k.hash, j) && Get(Run(es), k) == Some(ReadAs(es[j].block, k));
      OneWinner(es, k.hash, i, j);
    }
  }

  /** The block kept under a multihash, in the active store if it is there. */
  function StoredAs(s: State, h: Multihash): Block
    requires h in s.active || h in s.inactive
  {
    if h in s.active then s.active[h] else s.inactive[h]
  }

  /** It is kept under the very CID of the put that a read goes back to. */
  lemma StoredIsAsPut(es: seq<Event>, h: Multihash)
    requires h in Run(es).active || h in Run(es).inactive
    ensures exists i: nat :: ReadFrom(es, h, i) && es[i].block.cid == StoredAs(Run(es), h).cid
  {
    var s := Run(es);
    SourcedOn(es);
    CompleteOn(es);
    var turns := if h in s.active then 0 else 1;
    assert ComesFrom(es, h, turns, StoredAs(s, h));
    var i: nat :| Wins(es, h, i, turns) && es[i].block.cid == StoredAs(s, h).cid;
    assert ReadFrom(es, h, i);
  }

  /** A block put under its version-0 CID and asked for by the version-1 CID of the same codec and multihash comes back
      under the version-0 CID. */
  lemma VersionIsNotLookedAt(h: Multihash, data: seq<nat>)
    ensures var put, k := Block(Cid(0, DAG_PB, h), data, true), Cid(1, DAG_PB, h);
            Get(Run([Put(put)]), k) == Some(put) && put.cid != k
  {
    var put := Put(Block(Cid(0, DAG_PB, h), data, true));
    assert [put][..0] == [];
    assert Run([put]) == Step(Run([]), put);
  }

  function Puts(bs: seq<Block>): seq<Event> {
    seq(|bs|, i requires 0 <= i < |bs| => Put(bs[i]))
  }

  function Deletions(ks: seq<Cid>): seq<Event> {
    seq(|ks|, i requires 0 <= i < |ks| => Delete(ks[i]))
  }

  /** Putting or deleting many is the same as doing it one by one. */
  lemma {:induction false} PutManyIsPuts(es: seq<Event>, bs: seq<Block>)
    ensures Run(es + Puts(bs)) == Run(es).(active := MemPutMany(Run(es).active, bs))
  {
    if bs == [] {
      assert es + Puts(bs) == es;
    } else {
      var front := bs[..|bs| - 1];
      PutManyIsPuts(es, front);
      var all := es + Puts(bs);
      assert all[..|all| - 1] == es + Puts(front);
    }
  }

  lemma RemoveOneMore(m: Mem, hs: set<Multihash>, h: Multihash)
    ensures (m - hs) - {h} == m - (hs + {h})
  {
  }

  lemma {:induction false} DeleteManyIsDeletes(es: seq<Event>, ks: seq<Cid>)
    ensures Run(es + Deletions(ks)) == State(Run(es).active - Hashes(ks), Run(es).inactive - Hashes(ks))
  {
    if ks == [] {
      assert es + Deletions(ks) == es;
    } else {
      var front := ks[..|ks| - 1];
      var last := ks[|ks| - 1];
      DeleteManyIsDeletes(es, front);
      var all := es + Deletions(ks);
      assert all[..|all| - 1] == es + Deletions(front) && all[|all| - 1] == Delete(last);
      assert ks == front + [last];
      HashesSnoc(front, last);
      RemoveOneMore(Run(es).active, Hashes(front), last.hash);
      RemoveOneMore(Run(es).inactive, Hashes(front), last.hash);
    }
  }

  lemma HashesSnoc(ks: seq<Cid>, k: Cid)
    ensures Hashes(ks + [k]) == Hashes(ks) + {k.hash}
  {
    var more := ks + [k];
    assert more[|ks|] == k;
    forall h | h in Hashes(ks)
      ensures h in Hashes(more)
    {
      var i :| 0 <= i < |ks| && ks[i].hash == h;
      assert more[i].hash == h;
    }
  }

  /** The store never mixes up keys: every block sits under its own multihash. */
  predicate WellKeyed(m: Mem) {
    forall h | h in m :: m[h].cid.hash == h && m[h].basic
  }

  lemma {:induction false} PutManyKeyed(m: Mem, bs: seq<Block>)
    requires WellKeyed(m)
    ensures WellKeyed(MemPutMany(m, bs))
    ensures MemPutMany(m, bs).Keys == m.Keys + set i | 0 <= i < |bs| :: bs[i].cid.hash
  {
    if bs != [] {
      var front := bs[..|bs| - 1];
      PutManyKeyed(m, front);
      assert forall i | 0 <= i < |front| :: front[i] == bs[i];
    }
  }
}
