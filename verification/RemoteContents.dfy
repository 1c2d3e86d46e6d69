/** What reads of the remote store see, in terms of the writes handled before them. */
module RemoteContents {
  import opened Outcomes
  import opened Cbor
  import opened NetRpc
  import opened NetServer
  import opened NetClient
  import opened NetSystem
  import opened NetRemote

  // -- the store as the last writes left it

  /** A delete removes exactly the CIDs it names and leaves the data of all others alone. */
  lemma DeletedExactly(s: Store, cids: seq<Cid>, c: Cid)
    ensures c in DeleteAll(s, cids) <==> c in s && c !in cids
    ensures c in DeleteAll(s, cids) ==> DeleteAll(s, cids)[c] == s[c]
  {
  }

  predicate PutsTo(blocks: seq<Block>, c: Cid) {
    exists i | 0 <= i < |blocks| :: blocks[i].cid == c
  }

  /** The last block put under c. */
  predicate LastBlock(blocks: seq<Block>, c: Cid, i: nat) {
    i < |blocks| && blocks[i].cid == c && forall j | i < j < |blocks| :: blocks[j].cid != c
  }

  predicate WritesTo(op: Op, c: Cid) {
    (op.PutMany? && PutsTo(op.blocks, c)) || (op.DeleteMany? && c in op.cids)
  }

  /** What is under c after an operation that writes to it. */
  ghost predicate Leaves(op: Op, c: Cid, held: Option<Bytes>) {
    match op
    case PutMany(blocks) => exists i: nat :: LastBlock(blocks, c, i) && held == Some(blocks[i].data)
    case _ => held == None
  }

  function At(s: Store, c: Cid): Option<Bytes> {
    if c in s then Some(s[c]) else None
  }

  lemma {:induction false} LastBlockExists(blocks: seq<Block>, c: Cid)
    requires PutsTo(blocks, c)
    ensures exists i: nat :: LastBlock(blocks, c, i)
  {
    var n := |blocks| - 1;
    if blocks[n].cid == c {
      assert LastBlock(blocks, c, n);
    } else {
      var i :| 0 <= i < |blocks| && blocks[i].cid == c;
      assert blocks[..n][i].cid == c;
      LastBlockExists(blocks[..n], c);
      var k: nat :| LastBlock(blocks[..n], c, k);
      assert LastBlock(blocks, c, k);
    }
  }

  lemma ApplyAt(op: Op, s: Store, c: Cid)
    ensures if WritesTo(op, c) then Leaves(op, c, At(Apply(op, s), c)) else At(Apply(op, s), c) == At(s, c)
  {
    match op
    case PutMany(blocks) =>
      if PutsTo(blocks, c) {
        LastBlockExists(blocks, c);
        var i: nat :| LastBlock(blocks, c, i);
        LastPutWins(s, blocks, c, i);
      } else {
        OthersUntouched(s, blocks, c);
      }
    case DeleteMany(cids) => DeletedExactly(s, cids, c);
    case _ =>
  }

  /** The j-th of the calls is the last that writes to c. */
  ghost predicate LastWrite(calls: map<Id, Op>, ids: seq<Id>, c: Cid, j: nat)
    requires CallsKnown(calls, ids)
  {
    j < |ids| && WritesTo(calls[ids[j]], c) && forall m | j < m < |ids| :: !WritesTo(calls[ids[m]], c)
  }

  /** What is under c once the calls have run: what the last write to it left, or what was there. */
  ghost predicate HeldAfter(s: Store, calls: map<Id, Op>, ids: seq<Id>, c: Cid, held: Option<Bytes>)
    requires CallsKnown(calls, ids)
  {
    if exists j: nat :: LastWrite(calls, ids, c, j)
    then exists j: nat :: LastWrite(calls, ids, c, j) && Leaves(calls[ids[j]], c, held)
    else held == At(s, c)
  }

  lemma {:induction false} ContentsAreLastWrites(s: Store, calls: map<Id, Op>, ids: seq<Id>, c: Cid)
    requires CallsKnown(calls, ids)
    ensures HeldAfter(s, calls, ids, c, At(After(s, calls, ids), c))
  {
    if ids != [] {
      var n := |ids| - 1;
      var front := ids[..n];
      ContentsAreLastWrites(s, calls, front, c);
      ApplyAt(calls[ids[n]], After(s, calls, front), c);
      if WritesTo(calls[ids[n]], c) {
        assert LastWrite(calls, ids, c, n);
      } else {
        if j: nat :| LastWrite(calls, front, c, j) && Leaves(calls[front[j]], c, At(After(s, calls, front), c)) {
          assert LastWrite(calls, ids, c, j);
        }
        if j: nat :| LastWrite(calls, ids, c, j) {
          assert LastWrite(calls, front, c, j);
        }
      }
    }
  }

  /** What a read answers when this is under its CID. */
  function ReadAnswer(texts: Texts, op: Op, held: Option<Bytes>): Answer
    requires op.Has? || op.Get? || op.GetSize?
  {
    match op
    case Has(_) => Bool(held.Some?)
    case Get(c) =>
      if held.None? then NotFound(c, texts.notFound(c))
      else if |held.value| <= 2097152 then Found(Block(c, held.value)) else Refused(texts.tooLong)
    case GetSize(c) =>
      if held.None? then NotFound(c, texts.notFound(c)) else Size(|held.value| % 0x1_0000_0000)
  }

  /** A read answered as the k-th request sees what the last of the writes handled before it left. */
  ghost predicate SeesLastWrite(texts: Texts, s: Store, sys: System, id: Id, resp: NetRpcResp, k: nat)
    requires id in sys.calls && (sys.calls[id].Has? || sys.calls[id].Get? || sys.calls[id].GetSize?)
  {
    && k < |sys.sentIds| && sys.sentIds[k] == id && CallsKnown(sys.calls, sys.sentIds[..k])
    && exists held :: HeldAfter(s, sys.calls, sys.sentIds[..k], sys.calls[id].c, held)
                      && Interpret(sys.calls[id], resp) == ReadAnswer(texts, sys.calls[id], held)
  }

  /** In every run without failures of the server's store, whatever Has, Get or GetSize is handed says that the store
      closed, or is about what the last write to its CID left among the writes the server handled before it: a CID
      deleted and not put again is gone, and one put holds the last data put. */
  lemma ReadsSeeLastWrite(texts: Texts, s: Store, ss: seq<System>, acts: seq<Action>, n: nat, i: nat)
    requires SysRun(CborWire(texts), s, ss, acts) && n < |ss| && Faultless(ss[n].faults)
    requires i < |ss[n].client.chans| && ss[n].client.chans[i].sent != []
    requires var id := ss[n].client.chans[i].id;
             id in ss[n].calls && (ss[n].calls[id].Has? || ss[n].calls[id].Get? || ss[n].calls[id].GetSize?)
    ensures var sys, ch := ss[n], ss[n].client.chans[i];
            (sys.closing.Some? && ch.sent[0] == CloseMsg(ch.id, sys.closing.value))
            || exists k: nat :: SeesLastWrite(texts, s, sys, ch.id, ch.sent[0].resp, k)
  {
    RemoteIsLocal(texts, s, ss, acts, n, i);
    var sys, ch := ss[n], ss[n].client.chans[i];
    if k: nat :| LocalAnswer(texts, s, sys.calls, sys.sentIds, ch.id, ch.sent[0].resp, k) {
      var ids, op := sys.sentIds[..k], sys.calls[ch.id];
      ContentsAreLastWrites(s, sys.calls, ids, op.c);
      var held := At(After(s, sys.calls, ids), op.c);
      assert Interpret(op, ch.sent[0].resp) == ReadAnswer(texts, op, held);
      assert SeesLastWrite(texts, s, sys, ch.id, ch.sent[0].resp, k);
    }
  }
}
