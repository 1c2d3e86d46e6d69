/** The write-behind store as an object: each critical section as in the step model, and whole operations
    as they run when nothing comes in between. */
module AutobatchStore {
  import opened Outcomes
  import opened Autobatch
  import opened AutobatchFlush
  import opened AutobatchSafety
  import opened AutobatchProgress

  class AutobatchBlockstore {
    var addedCids: set<Cid>
    var bufferedBatch: Batch
    var flushingBatch: Batch
    var flushErr: bool
    var flushSignal: bool
    var backing: map<Cid, Blk>
    const bufferCapacity: nat
    var bufferSize: nat
    ghost var order: seq<Blk>
    ghost var taken: seq<seq<Blk>>

    ghost function Fields(): Shared
      reads this
    {
      Shared(addedCids, bufferedBatch, flushingBatch, flushErr, bufferSize, flushSignal, backing)
    }

    /** The invariant of the step model between flushes. */
    ghost predicate Valid()
      reads this
    {
      && InOrder(Fields(), taken, order)
      && OneInFlight(Fields(), taken)
      && (flushErr || AllStored(taken, backing))
    }

    constructor (backing: map<Cid, Blk>, bufferCapacity: nat)
      ensures Valid() && Fields() == Init(backing).sh && this.bufferCapacity == bufferCapacity
    {
      addedCids := {};
      bufferedBatch := EMPTY;
      flushingBatch := EMPTY;
      flushErr := false;
      flushSignal := false;
      this.backing := backing;
      this.bufferCapacity := bufferCapacity;
      bufferSize := 0;
      order := [];
      taken := [];
    }

    method Put(blk: Blk)
      requires Valid()
      modifies this
      ensures Valid() && Fields() == PutSection(old(Fields()), blk, bufferCapacity)
      ensures blk.cid in addedCids
      ensures order == if blk.cid in old(addedCids) then old(order) else old(order) + [blk]
    {
      if blk.cid in addedCids {
        return;
      }
      ghost var before, earlier := Fields(), order;
      addedCids := addedCids + {blk.cid};
      bufferedBatch := Batch(bufferedBatch.blockList + [blk], bufferedBatch.blockMap[blk.cid := blk]);
      bufferSize := bufferSize + |blk.data|;
      if bufferSize >= bufferCapacity {
        flushSignal := true;
      }
      order := order + [blk];
      assert Fields() == PutSection(before, blk, bufferCapacity);
      PutSectionKeeps(before, taken, earlier, blk, bufferCapacity);
    }

    /** PutMany of the batch in flight on the backing store, which may give up after `stop` blocks. */
    method StoreFlushing(stop: Option<nat>)
      requires InOrder(Fields(), taken, order) && OneInFlight(Fields(), taken)
      modifies this`backing, this`flushErr
      ensures InOrder(Fields(), taken, order) && OneInFlight(Fields(), taken)
      ensures !flushErr ==> AllStored(taken, backing)
      ensures old(backing).Keys <= backing.Keys
      ensures Fields() == WriteSection(old(Fields()), stop)
    {
      var list := flushingBatch.blockList;
      for i := 0 to |list|
        invariant stop.Some? ==> i <= stop.value
        invariant flushErr == old(flushErr) && backing == Written(list, old(backing), i)
      {
        if stop == Some(i) {
          WrittenIsStored(list, old(backing), i);
          StoringKeeps(old(Fields()), taken, order, backing);
          flushErr := true;
          return;
        }
        backing := backing[list[i].cid := list[i]];
      }
      WrittenIsStored(list, old(backing), |list|);
      StoringKeeps(old(Fields()), taken, order, backing);
      flushErr := false;
      assert list[..|list|] == list;
      LastStored(Fields(), taken);
    }

    /** doFlush: the whole flush on the fields.  Without error and unless only retrying, everything put ends up in the
        backing store; with an error nothing is lost.  `retry` and `flush` say where the writes give up, if they do. */
    method DoFlush(retryOnly: bool, retry: Option<nat>, flush: Option<nat>) returns (err: bool)
      requires Valid()
      modifies this
      ensures Valid() && order == old(order) && addedCids == old(addedCids) && bufferSize == old(bufferSize)
      ensures old(backing).Keys <= backing.Keys
      ensures Fields() == FlushSections(old(Fields()), retryOnly, retry, flush)
      ensures err == flushErr && (!err ==> AllStored(taken, backing))
      ensures err <==> if old(flushErr) && GivesUp(retry, |old(flushingBatch.blockList)|) then true
                       else !retryOnly && GivesUp(flush, |old(bufferedBatch.blockList)|)
      ensures !err && !retryOnly ==> addedCids <= backing.Keys && bufferedBatch == EMPTY && flushingBatch == EMPTY
      ensures retryOnly ==> bufferedBatch == old(bufferedBatch) && taken == old(taken)
    {
      if flushErr {
        StoreFlushing(retry);
      }
      if retryOnly || flushErr {
        return flushErr;
      }
      FlatAppend(taken, bufferedBatch.blockList);
      assert (taken + [bufferedBatch.blockList])[..|taken|] == taken;
      flushingBatch, taken := bufferedBatch, taken + [bufferedBatch.blockList];
      bufferedBatch := EMPTY;
      assert OneInFlight(Fields(), taken);
      StoreFlushing(flush);
      if !flushErr {
        AllTakenStored(taken, backing);
        flushingBatch := EMPTY;
        assert Flat(taken) == order;
        assert Stored(taken[|taken| - 1], backing);
      }
      return flushErr;
    }

    /** Get finds exactly what was put or was in the backing store, as its three steps do with nothing in between. */
    method Get(c: Cid) returns (r: Answer)
      requires Valid()
      ensures Answered(r) == Alone(Fields(), c)
      ensures r.NotFound? <==> c !in addedCids + backing.Keys
      ensures c in backing ==> r == Found(backing[c])
      ensures r.Found? && c !in backing ==> r.blk in order && r.blk.cid == c
      ensures !r.Failed?
    {
      AloneFinds(Fields(), c);
      if c in backing {
        return Found(backing[c]);
      }
      if c in flushingBatch.blockMap {
        InFlat(taken, flushingBatch.blockMap[c]);
        return Found(flushingBatch.blockMap[c]);
      }
      if c in bufferedBatch.blockMap {
        return Found(bufferedBatch.blockMap[c]);
      }
      if c in addedCids {
        NothingLost(State(Fields(), Nobody, map[], map[], map[], order, taken), c);
      }
      return NotFound;
    }
  }
}
