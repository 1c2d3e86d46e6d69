/** The server as the source writes it: a loop that reads a request, works on the store and writes a reply. The
    stream's writes succeed; the store's own failures are given by `faults`. */
module NetworkStoreHandlers {
  import opened Outcomes
  import opened Cbor
  import opened CborStreams
  import opened NetRpc
  import opened NetRpcCodec
  import opened NetServer

  datatype Session = Session(replies: seq<Bytes>, open: bool, store: Store)

  /** What the server has done after reading the given messages. */
  function Serving(texts: Texts, s: Store, msgs: seq<Bytes>, faults: nat -> Option<Fault>): Session {
    if msgs == [] then Session([], true, s)
    else
      var n := |msgs| - 1;
      var before := Serving(texts, s, msgs[..n], faults);
      if !before.open then before
      else
        var served := Serve(texts, msgs[n], before.store, faults(n));
        Session(before.replies + if served.reply.Some? then [served.reply.value] else [], served.open, served.store)
  }

  function Front<T>(xs: seq<T>): seq<T>
    requires xs != []
  {
    xs[..|xs| - 1]
  }

  function Final<T>(xs: seq<T>): T
    requires xs != []
  {
    xs[|xs| - 1]
  }

  /** The message is the request of this operation, and the server can read it. */
  predicate AsksFor(msg: Bytes, op: Op, id: Uint64) {
    Sendable(op, id) && MarshalReq(ReqOf(op, id)) == Some(msg)
  }

  predicate Asks(msgs: seq<Bytes>, ops: seq<Op>, ids: seq<Uint64>) {
    |msgs| == |ops| == |ids| && forall k | 0 <= k < |ops| :: AsksFor(msgs[k], ops[k], ids[k])
  }

  /** The store after the operations, run one by one. */
  function RunAll(ops: seq<Op>, s: Store): Store {
    if ops == [] then s else Apply(Final(ops), RunAll(Front(ops), s))
  }

  /** Every error text that an answer needs can be written. */
  predicate AllFit(texts: Texts, ops: seq<Op>, s: Store) {
    ops != [] ==> AllFit(texts, Front(ops), s) && TextFits(texts, Final(ops), RunAll(Front(ops), s))
  }

  predicate ReadsAs(reply: Bytes, op: Op, id: Uint64, answer: Answer) {
    var p := UnmarshalResp(reply);
    p.Got? && p.value.id == id && p.value.ty != RESP_MORE && Interpret(op, p.value) == answer
  }

  /** One reply per operation, in order, each right for the store the operations before it left. */
  predicate InOrder(right: (Bytes, Op, Uint64, Store) -> bool, ops: seq<Op>, ids: seq<Uint64>, s: Store,
                    replies: seq<Bytes>) {
    && |replies| == |ops| == |ids|
    && (ops != [] ==>
          && InOrder(right, Front(ops), Front(ids), s, Front(replies))
          && right(Final(replies), Final(ops), Final(ids), RunAll(Front(ops), s)))
  }

  lemma {:induction false} InOrderAt(right: (Bytes, Op, Uint64, Store) -> bool, ops: seq<Op>, ids: seq<Uint64>,
                                     s: Store, replies: seq<Bytes>, k: nat)
    requires InOrder(right, ops, ids, s, replies) && k < |ops|
    ensures right(replies[k], ops[k], ids[k], RunAll(ops[..k], s))
  {
    if k < |ops| - 1 {
      InOrderAt(right, Front(ops), Front(ids), s, Front(replies), k);
      assert Front(ops)[..k] == ops[..k];
    }
  }

  /** The reply is read as the answer of the operation on the store. */
  function AnswerOn(texts: Texts): (Bytes, Op, Uint64, Store) -> bool {
    (reply, op, id, s) => ReadsAs(reply, op, id, Expected(texts, op, s))
  }

  predicate AnsweredInOrder(texts: Texts, ops: seq<Op>, ids: seq<Uint64>, s: Store, replies: seq<Bytes>) {
    InOrder(AnswerOn(texts), ops, ids, s, replies)
  }

  /** The k-th reply is the answer of the k-th operation after the ones before it. */
  lemma ReplyAt(texts: Texts, ops: seq<Op>, ids: seq<Uint64>, s: Store, replies: seq<Bytes>, k: nat)
    requires AnsweredInOrder(texts, ops, ids, s, replies) && k < |ops|
    ensures ReadsAs(replies[k], ops[k], ids[k], Expected(texts, ops[k], RunAll(ops[..k], s)))
  {
    InOrderAt(AnswerOn(texts), ops, ids, s, replies, k);
  }

  lemma ServedLocally(texts: Texts, msg: Bytes, op: Op, id: Uint64, s: Store)
    requires AsksFor(msg, op, id) && TextFits(texts, op, s)
    ensures var served := Serve(texts, msg, s, None);
            && served.open && served.store == Apply(op, s) && served.reply.Some?
            && ReadsAs(served.reply.value, op, id, Expected(texts, op, s))
  {
    RemoteCall(texts, op, id, s);
  }

  lemma OneMoreAnswer(texts: Texts, ops: seq<Op>, ids: seq<Uint64>, s: Store, replies: seq<Bytes>, reply: Bytes)
    requires ops != [] && |ops| == |ids| && AnsweredInOrder(texts, Front(ops), Front(ids), s, replies)
    requires ReadsAs(reply, Final(ops), Final(ids), Expected(texts, Final(ops), RunAll(Front(ops), s)))
    ensures AnsweredInOrder(texts, ops, ids, s, replies + [reply])
  {
    assert Front(replies + [reply]) == replies;
  }

  lemma AskedBefore(msgs: seq<Bytes>, ops: seq<Op>, ids: seq<Uint64>)
    requires Asks(msgs, ops, ids) && ops != []
    ensures Asks(Front(msgs), Front(ops), Front(ids)) && AsksFor(Final(msgs), Final(ops), Final(ids))
  {
  }

  lemma ServesOneMore(texts: Texts, s: Store, msgs: seq<Bytes>, faults: nat -> Option<Fault>, before: Session)
    requires msgs != [] && before == Serving(texts, s, Front(msgs), faults) && before.open
    requires faults(|msgs| - 1).None? && Serve(texts, Final(msgs), before.store, None).reply.Some?
    ensures var served := Serve(texts, Final(msgs), before.store, None);
            Serving(texts, s, msgs, faults) == Session(before.replies + [served.reply.value], served.open, served.store)
  {
  }

  /** What it takes for a session to come to the operations run one by one. */
  ghost predicate Locally(texts: Texts, s: Store, ops: seq<Op>, ids: seq<Uint64>, r: Session) {
    r.open && r.store == RunAll(ops, s) && AnsweredInOrder(texts, ops, ids, s, r.replies)
  }

  /** Serving the requests of a client comes to running its operations one by one on the store, each request being
      answered, in order, as its operation is on the store at that point. */
  lemma {:induction false} ServingIsLocal(texts: Texts, s: Store, msgs: seq<Bytes>, faults: nat -> Option<Fault>,
                                          ops: seq<Op>, ids: seq<Uint64>)
    requires (forall k :: faults(k).None?) && Asks(msgs, ops, ids) && AllFit(texts, ops, s)
    ensures Locally(texts, s, ops, ids, Serving(texts, s, msgs, faults))
    decreases |msgs|
  {
    if ops != [] {
      AskedBefore(msgs, ops, ids);
      ServingIsLocal(texts, s, Front(msgs), faults, Front(ops), Front(ids));
      var before := Serving(texts, s, Front(msgs), faults);
      ServedLocally(texts, Final(msgs), Final(ops), Final(ids), before.store);
      ServesOneMore(texts, s, msgs, faults, before);
      var reply := Serve(texts, Final(msgs), before.store, None).reply.value;
      OneMoreAnswer(texts, ops, ids, s, before.replies, reply);
    }
  }

  /** If the messages are the requests of some operations, and the store does not fail, r comes to those operations. */
  ghost predicate ServesLocally(texts: Texts, s: Store, msgs: seq<Bytes>, faults: nat -> Option<Fault>, r: Session) {
    (forall k :: faults(k).None?) ==>
      forall ops, ids | Asks(msgs, ops, ids) && AllFit(texts, ops, s) :: Locally(texts, s, ops, ids, r)
  }

  lemma AlwaysLocal(texts: Texts, s: Store, msgs: seq<Bytes>, faults: nat -> Option<Fault>)
    ensures ServesLocally(texts, s, msgs, faults, Serving(texts, s, msgs, faults))
  {
    if forall k :: faults(k).None? {
      forall ops, ids | Asks(msgs, ops, ids) && AllFit(texts, ops, s)
        ensures Locally(texts, s, ops, ids, Serving(texts, s, msgs, faults))
      {
        ServingIsLocal(texts, s, msgs, faults, ops, ids);
      }
    }
  }

  class NetworkStoreHandler {
    const texts: Texts
    var bs: Store
    var out: seq<Bytes>

    constructor (texts: Texts, bs: Store)
      ensures this.texts == texts && this.bs == bs && out == []
    {
      this.texts, this.bs, out := texts, bs, [];
    }

    ghost predicate Wrote(before: seq<Bytes>, reply: Option<Bytes>)
      reads this
    {
      out == before + if reply.Some? then [reply.value] else []
    }

    method DoRespond(id: Uint64, ty: Byte, data: Bytes) returns (ok: bool)
      modifies `out
      ensures ok <==> Respond(id, ty, data).Some?
      ensures Wrote(old(out), Respond(id, ty, data))
    {
      var msg := EncodeResp(NetRpcResp(ty, id, data));
      if msg.None? {
        return false;
      }
      out := out + [msg.value];
      ok := true;
    }

    method DoRespondError(id: Uint64, notFound: bool, text: Bytes, c: Cid) returns (ok: bool)
      modifies `out
      ensures ok <==> RespondError(id, notFound, text, c).Some?
      ensures Wrote(old(out), RespondError(id, notFound, text, c))
    {
      var err := NetRpcErr(ERR_GENERIC, text, None);
      if notFound {
        err := err.(ty := ERR_NOT_FOUND, cid := Some(c));
      }
      var data;
      ok, data := EncodeErr(err);
      if ok {
        ok := DoRespond(id, RESP_ERR, data);
      }
    }

    /** A reading request for one CID, on a store that does not fail. */
    method HandleOneCid(req: NetRpcReq, c: Cid) returns (open: bool)
      modifies `out
      ensures var served := HandleRead(texts, req, c, bs);
              open == served.open && bs == served.store && Wrote(old(out), served.reply)
    {
      if req.ty == REQ_HAS {
        open := DoRespond(req.id, RESP_OK, [if c in bs then TRUE else FALSE]);
      } else if c !in bs {
        open := DoRespondError(req.id, true, texts.notFound(c), c);
      } else if req.ty == REQ_GET {
        open := DoRespond(req.id, RESP_OK, bs[c]);
        if !open {
          open := DoRespondError(req.id, false, texts.tooLong, c);
        }
      } else {
        open := DoRespond(req.id, RESP_OK, LittleEndian32(|bs[c]|));
      }
    }

    method HandleReading(req: NetRpcReq, fault: Option<Fault>) returns (open: bool)
      requires req.ty == REQ_HAS || req.ty == REQ_GET || req.ty == REQ_GET_SIZE
      modifies this
      ensures var served := Handle(texts, req, old(bs), fault);
              open == served.open && bs == served.store && Wrote(old(out), served.reply)
    {
      if |req.cids| != 1 {
        open := DoRespondError(req.id, false, texts.oneCid, UNDEF);
      } else if fault.Some? {
        bs := fault.value.left;
        open := DoRespondError(req.id, fault.value.notFound, fault.value.text, req.cids[0]);
      } else {
        open := HandleOneCid(req, req.cids[0]);
      }
    }

    method HandlePut(req: NetRpcReq, fault: Option<Fault>) returns (open: bool)
      requires req.ty == REQ_PUT
      modifies this
      ensures var served := Handle(texts, req, old(bs), fault);
              open == served.open && bs == served.store && Wrote(old(out), served.reply)
    {
      if |req.cids| != |req.data| {
        var ok := DoRespondError(req.id, false, texts.mismatch, UNDEF);
        return false;
      }
      var n := |req.cids|;
      var blocks := new Block[n](_ => Block(UNDEF, []));
      var i := 0;
      while i < n
        invariant i <= n && bs == old(bs) && out == old(out)
        invariant blocks[..i] == Blocks(req.cids, req.data)[..i]
      {
        blocks[i] := Block(req.cids[i], req.data[i]);
        assert Blocks(req.cids, req.data)[..i + 1] == Blocks(req.cids, req.data)[..i] + [blocks[i]];
        i := i + 1;
      }
      assert blocks[..] == Blocks(req.cids, req.data);
      if fault.Some? {
        bs := fault.value.left;
        open := DoRespondError(req.id, fault.value.notFound, fault.value.text, UNDEF);
      } else {
        bs := PutAll(bs, blocks[..]);
        open := DoRespond(req.id, RESP_OK, []);
      }
    }

    method HandleDelete(req: NetRpcReq, fault: Option<Fault>) returns (open: bool)
      requires req.ty == REQ_DELETE
      modifies this
      ensures var served := Handle(texts, req, old(bs), fault);
              open == served.open && bs == served.store && Wrote(old(out), served.reply)
    {
      if fault.Some? {
        bs := fault.value.left;
        open := DoRespondError(req.id, fault.value.notFound, fault.value.text, UNDEF);
      } else {
        bs := DeleteAll(bs, req.cids);
        open := DoRespond(req.id, RESP_OK, []);
      }
    }

    /** One turn of the loop; the result says whether there is another. */
    method HandleOne(msg: Bytes, fault: Option<Fault>) returns (open: bool)
      modifies this
      ensures var served := Serve(texts, msg, old(bs), fault);
              open == served.open && bs == served.store && Wrote(old(out), served.reply)
    {
      var r := new CborReader(msg);
      var req := UnmarshalReqCBOR(r);
      if req.None? {
        return false;
      }
      var ty := req.value.ty;
      if ty == REQ_HAS || ty == REQ_GET || ty == REQ_GET_SIZE {
        open := HandleReading(req.value, fault);
      } else if ty == REQ_PUT {
        open := HandlePut(req.value, fault);
      } else if ty == REQ_DELETE {
        open := HandleDelete(req.value, fault);
      } else {
        open := DoRespondError(req.value.id, false, texts.unsupported, UNDEF);
      }
    }

    /** Reads messages until the loop ends itself or there are no more. */
    method HandleAll(msgs: seq<Bytes>, faults: nat -> Option<Fault>) returns (open: bool)
      requires out == []
      modifies this
      ensures Session(out, open, bs) == Serving(texts, old(bs), msgs, faults)
      ensures ServesLocally(texts, old(bs), msgs, faults, Session(out, open, bs))
    {
      AlwaysLocal(texts, bs, msgs, faults);
      open := true;
      var i := 0;
      while i < |msgs|
        invariant i <= |msgs| && open
        invariant Session(out, open, bs) == Serving(texts, old(bs), msgs[..i], faults)
      {
        assert msgs[..i + 1][..i] == msgs[..i];
        open := HandleOne(msgs[i], faults(i));
        i := i + 1;
        if !open {
          ClosedStays(texts, old(bs), msgs, i, faults);
          return;
        }
      }
      assert msgs[..i] == msgs;
    }
  }

  lemma {:induction false} ClosedStays(texts: Texts, s: Store, msgs: seq<Bytes>, n: nat, faults: nat -> Option<Fault>)
    requires n <= |msgs| && !Serving(texts, s, msgs[..n], faults).open
    ensures Serving(texts, s, msgs, faults) == Serving(texts, s, msgs[..n], faults)
    decreases |msgs|
  {
    if n == |msgs| {
      assert msgs[..n] == msgs;
    } else {
      var front := msgs[..|msgs| - 1];
      assert front[..n] == msgs[..n];
      ClosedStays(texts, s, front, n, faults);
    }
  }
}
