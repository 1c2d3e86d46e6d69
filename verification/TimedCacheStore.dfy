/** The stores as the source writes them: a map changed in place, and two of them that swap places. */
module TimedCacheStore {
  import opened Outcomes
  import opened TimedCache

  class MemBlockstore {
    var blocks: Mem

    constructor ()
      ensures blocks == map[]
    {
      blocks := map[];
    }

    method Put(b: Block)
      modifies this
      ensures blocks == MemPut(old(blocks), b)
    {
      var k := b.cid.hash;
      var c := b;
      if !c.basic {
        if k in blocks {
          return;
        }
        c := Block(b.cid, b.data, true);
      }
      blocks := blocks[k := c];
    }

    method PutMany(bs: seq<Block>)
      modifies this
      ensures blocks == MemPutMany(old(blocks), bs)
    {
      var i := 0;
      while i < |bs|
        invariant i <= |bs|
        invariant blocks == MemPutMany(old(blocks), bs[..i])
      {
        Put(bs[i]);
        assert bs[..i + 1][..i] == bs[..i];
        i := i + 1;
      }
      assert bs[..i] == bs;
    }

    method DeleteBlock(k: Cid)
      modifies this
      ensures blocks == old(blocks) - {k.hash}
    {
      blocks := blocks - {k.hash};
    }

    method DeleteMany(ks: seq<Cid>)
      modifies this
      ensures blocks == old(blocks) - Hashes(ks)
    {
      var i := 0;
      while i < |ks|
        invariant i <= |ks|
        invariant blocks == old(blocks) - Hashes(ks[..i])
      {
        HashesSnoc(ks[..i], ks[i]);
        assert ks[..i + 1] == ks[..i] + [ks[i]];
        blocks := blocks - {ks[i].hash};
        i := i + 1;
      }
      assert ks[..i] == ks;
    }

    method Get(k: Cid) returns (b: Option<Block>)
      ensures b == MemGet(blocks, k)
    {
      if k.hash !in blocks {
        return None;
      }
      var found := blocks[k.hash];
      if found.cid.codec != k.codec {
        return Some(Block(k, found.data, true));
      }
      b := Some(found);
    }

    method GetSize(k: Cid) returns (n: Option<nat>)
      ensures n == if k.hash in blocks then Some(|blocks[k.hash].data|) else None
    {
      n := if k.hash in blocks then Some(|blocks[k.hash].data|) else None;
    }
  }

  class TimedCacheBlockstore {
    var active: MemBlockstore
    var inactive: MemBlockstore

    ghost predicate Valid()
      reads this, active, inactive
    {
      active != inactive && WellKeyed(active.blocks) && WellKeyed(inactive.blocks)
    }

    ghost function Contents(): State
      reads this, active, inactive
    {
      State(active.blocks, inactive.blocks)
    }

    constructor ()
      ensures Valid() && fresh(active) && fresh(inactive)
      ensures Contents() == EMPTY
    {
      active := new MemBlockstore();
      inactive := new MemBlockstore();
    }

    method DoRotate()
      requires Valid()
      modifies this
      ensures Valid() && fresh(active) && inactive == old(active)
      ensures Contents() == Step(old(Contents()), Rotate)
    {
      var bs := new MemBlockstore();
      inactive, active := active, bs;
    }

    method Put(b: Block)
      requires Valid()
      modifies active
      ensures Valid()
      ensures Contents() == Step(old(Contents()), TimedCache.Put(b))
    {
      active.Put(b);
    }

    method PutMany(bs: seq<Block>)
      requires Valid()
      modifies active
      ensures Valid()
      ensures Contents() == old(Contents()).(active := MemPutMany(old(active.blocks), bs))
    {
      PutManyKeyed(active.blocks, bs);
      active.PutMany(bs);
    }

    method DeleteBlock(k: Cid)
      requires Valid()
      modifies active, inactive
      ensures Valid()
      ensures Contents() == Step(old(Contents()), Delete(k))
    {
      active.DeleteBlock(k);
      inactive.DeleteBlock(k);
    }

    method DeleteMany(ks: seq<Cid>)
      requires Valid()
      modifies active, inactive
      ensures Valid()
      ensures Contents() == State(old(active.blocks) - Hashes(ks), old(inactive.blocks) - Hashes(ks))
    {
      active.DeleteMany(ks);
      inactive.DeleteMany(ks);
    }

    method Get(k: Cid) returns (b: Option<Block>)
      requires Valid()
      ensures b == TimedCache.Get(Contents(), k)
    {
      b := active.Get(k);
      if b.None? {
        b := inactive.Get(k);
      }
    }

    method GetSize(k: Cid) returns (n: Option<nat>)
      requires Valid()
      ensures n.Some? <==> Has(Contents(), k)
      ensures n.Some? ==> n.value == |TimedCache.Get(Contents(), k).value.data|
    {
      n := active.GetSize(k);
      if n.None? {
        n := inactive.GetSize(k);
      }
    }

    /** The keys go into a channel made as large as both stores together, so no send waits. */
    method AllKeysChan() returns (keys: seq<Cid>)
      requires Valid()
      ensures |keys| <= |active.blocks| + |inactive.blocks|
      ensures DistinctHashes(keys)
      ensures forall k: Cid :: Has(Contents(), k) <==> k.hash in Hashes(keys)
      ensures forall c | c in keys :: Has(Contents(), c) && c == StoredAs(Contents(), c.hash).cid
      ensures ListsPuts(Contents(), keys)
    {
      keys := Send(active.blocks, active.blocks.Keys, []);
      var more := inactive.blocks.Keys - active.blocks.Keys;
      ghost var first := keys;
      keys := Send(inactive.blocks, more, keys);
      ListedAsStored(Contents(), first, keys);
      Smaller(more, inactive.blocks.Keys);
      assert |active.blocks.Keys| == |active.blocks| && |inactive.blocks.Keys| == |inactive.blocks|;
      ListedArePuts(Contents(), keys);
    }

    /** Ranges over a map, in any order, sending the CID of each chosen entry. */
    static method Send(m: Mem, chosen: set<Multihash>, sent: seq<Cid>) returns (keys: seq<Cid>)
      requires WellKeyed(m) && chosen <= m.Keys && chosen !! Hashes(sent)
      requires DistinctHashes(sent)
      ensures |keys| == |sent| + |chosen|
      ensures DistinctHashes(keys)
      ensures Hashes(keys) == Hashes(sent) + chosen
      ensures sent <= keys && forall c | c in keys[|sent|..] :: c.hash in chosen && c == m[c.hash].cid
    {
      keys := sent;
      var left := chosen;
      while left != {}
        invariant left <= chosen && |keys| + |left| == |sent| + |chosen|
        invariant DistinctHashes(keys)
        invariant left !! Hashes(keys) && Hashes(keys) + left == Hashes(sent) + chosen
        invariant sent <= keys && forall c | c in keys[|sent|..] :: c.hash in chosen && c == m[c.hash].cid
        decreases left
      {
        var h :| h in left;
        var c := m[h].cid;
        SendOne(keys, c, left);
        keys := keys + [c];
        left := left - {h};
      }
    }
  }

  /** Keys from the active store, then keys from the inactive one that the active one does not have. */
  lemma ListedAsStored(s: State, first: seq<Cid>, keys: seq<Cid>)
    requires first <= keys
    requires forall c | c in first :: c.hash in s.active && c == s.active[c.hash].cid
    requires forall c | c in keys[|first|..] ::
               c.hash !in s.active && c.hash in s.inactive && c == s.inactive[c.hash].cid
    ensures forall c | c in keys :: Has(s, c) && c == StoredAs(s, c.hash).cid
  {
    assert keys == first + keys[|first|..];
  }

  /** However the stores came to this state, every key is the CID of the put that a read of it goes back to. */
  ghost predicate ListsPuts(s: State, keys: seq<Cid>) {
    forall es: seq<Event>, c | s == Run(es) && c in keys ::
      exists i: nat :: ReadFrom(es, c.hash, i) && es[i].block.cid == c
  }

  lemma ListedArePuts(s: State, keys: seq<Cid>)
    requires forall c | c in keys :: Has(s, c) && c == StoredAs(s, c.hash).cid
    ensures ListsPuts(s, keys)
  {
    forall es: seq<Event>, c | s == Run(es) && c in keys
      ensures exists i: nat :: ReadFrom(es, c.hash, i) && es[i].block.cid == c
    {
      StoredIsAsPut(es, c.hash);
    }
  }

  predicate DistinctHashes(ks: seq<Cid>) {
    forall i, j | 0 <= i < j < |ks| :: ks[i].hash != ks[j].hash
  }

  lemma SendOne(keys: seq<Cid>, c: Cid, left: set<Multihash>)
    requires DistinctHashes(keys) && c.hash in left && left !! Hashes(keys)
    ensures DistinctHashes(keys + [c])
    ensures Hashes(keys + [c]) + (left - {c.hash}) == Hashes(keys) + left
    ensures (left - {c.hash}) !! Hashes(keys + [c])
  {
    HashesSnoc(keys, c);
    forall i | 0 <= i < |keys|
      ensures keys[i].hash != c.hash
    {
      assert keys[i].hash in Hashes(keys);
    }
  }

  lemma Smaller(a: set<Multihash>, b: set<Multihash>)
    requires a <= b
    ensures |a| <= |b|
  {
    assert b == a + (b - a);
  }
}
