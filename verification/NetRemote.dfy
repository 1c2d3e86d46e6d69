/** The remote store as its users see it: over every run, whatever a call returns is what the same operation gives on
    the server's store, in the order the server handled the requests, and that order agrees with real time. */
module NetRemote {
  import opened Outcomes
  import opened Cbor
  import opened NetRpc
  import opened NetServer
  import opened NetClient
  import opened NetSystem

  // -- the CBOR wire format is such a wire

  function CborRequest(op: Op, id: Id): Option<Bytes> {
    if SaneCids(op, id) then MarshalReq(ReqOf(op, id)) else None
  }

  function CborReply(msg: Bytes): Option<NetRpcResp> {
    match UnmarshalResp(msg)
    case Fail => None
    case Got(resp, _) => Some(resp)
  }

  function CborWire(texts: Texts): Wire {
    Wire(CborRequest, (msg, s, f) => Serve(texts, msg, s, f), CborReply)
  }

  /** Every reply is made for the id of its request, and a server that goes on has replied. */
  ghost predicate RepliesTo(served: Served, id: Id) {
    && (served.open ==> served.reply.Some?)
    && (served.reply.Some? ==> exists ty: Byte, data: Bytes :: served.reply == Respond(id, ty, data))
  }

  lemma RefuseRepliesTo(id: Id, notFound: bool, text: Bytes, c: Cid, s: Store)
    ensures RepliesTo(Refuse(id, notFound, text, c, s), id)
  {
    var err := if notFound then NetRpcErr(ERR_NOT_FOUND, text, Some(c)) else NetRpcErr(ERR_GENERIC, text, None);
    if MarshalErr(err).Some? {
      assert RespondError(id, notFound, text, c) == Respond(id, RESP_ERR, MarshalErr(err).value);
    }
  }

  lemma AcceptRepliesTo(id: Id, data: Bytes, s: Store)
    ensures RepliesTo(Accept(id, data, s), id)
  {
    assert Accept(id, data, s).reply == Respond(id, RESP_OK, data);
  }

  lemma ReadRepliesTo(texts: Texts, req: NetRpcReq, c: Cid, s: Store)
    ensures RepliesTo(HandleRead(texts, req, c, s), req.id)
  {
    AcceptRepliesTo(req.id, [if c in s then TRUE else FALSE], s);
    RefuseRepliesTo(req.id, true, texts.notFound(c), c, s);
    RefuseRepliesTo(req.id, false, texts.tooLong, c, s);
    if c in s {
      AcceptRepliesTo(req.id, s[c], s);
      AcceptRepliesTo(req.id, LittleEndian32(|s[c]|), s);
    }
  }

  lemma FaultRepliesTo(id: Id, fault: Fault, c: Cid)
    ensures RepliesTo(Refuse(id, fault.notFound, fault.text, c, fault.left), id)
  {
    RefuseRepliesTo(id, fault.notFound, fault.text, c, fault.left);
  }

  lemma HandleRepliesTo(texts: Texts, req: NetRpcReq, s: Store, fault: Option<Fault>)
    ensures RepliesTo(Handle(texts, req, s, fault), req.id)
  {
    if req.ty == REQ_HAS || req.ty == REQ_GET || req.ty == REQ_GET_SIZE {
      if |req.cids| != 1 {
        RefuseRepliesTo(req.id, false, texts.oneCid, UNDEF, s);
      } else if fault.Some? {
        FaultRepliesTo(req.id, fault.value, req.cids[0]);
      } else {
        ReadRepliesTo(texts, req, req.cids[0], s);
      }
    } else if req.ty == REQ_PUT {
      if |req.cids| != |req.data| {
        RefuseRepliesTo(req.id, false, texts.mismatch, UNDEF, s);
      } else if fault.Some? {
        FaultRepliesTo(req.id, fault.value, UNDEF);
      } else {
        AcceptRepliesTo(req.id, [], PutAll(s, Blocks(req.cids, req.data)));
      }
    } else if req.ty == REQ_DELETE {
      if fault.Some? {
        FaultRepliesTo(req.id, fault.value, UNDEF);
      } else {
        AcceptRepliesTo(req.id, [], DeleteAll(s, req.cids));
      }
    } else {
      RefuseRepliesTo(req.id, false, texts.unsupported, UNDEF, s);
    }
  }

  lemma ReplyReadsBack(served: Served, id: Id)
    requires RepliesTo(served, id) && served.reply.Some?
    ensures CborReply(served.reply.value).Some? && CborReply(served.reply.value).value.id == id
  {
    var ty: Byte, data: Bytes :| served.reply == Respond(id, ty, data);
    assert GoodBlob(data);
    ReplyArrives(id, ty, data);
  }

  lemma UnsendableNotAnswered(texts: Texts, op: Op, id: Id, s: Store, fault: Option<Fault>)
    requires CborRequest(op, id).Some? && !Sendable(op, id)
    ensures Serve(texts, CborRequest(op, id).value, s, fault).reply.None?
  {
    assert SaneCids(op, id) && CborRequest(op, id) == MarshalReq(ReqOf(op, id));
    LongCidClosesStream(texts, op, id, s, fault);
  }

  /** Only a request whose CIDs the server can read is ever answered. */
  lemma AnsweredIsSendable(texts: Texts, op: Op, id: Id, s: Store, fault: Option<Fault>)
    requires CborRequest(op, id).Some? && Serve(texts, CborRequest(op, id).value, s, fault).reply.Some?
    ensures Sendable(op, id)
    ensures Serve(texts, CborRequest(op, id).value, s, fault) == Handle(texts, ReqOf(op, id), s, fault)
  {
    if Sendable(op, id) {
      ServeIsHandle(texts, op, id, s, fault);
    } else {
      UnsendableNotAnswered(texts, op, id, s, fault);
    }
  }

  lemma HandledEchoes(texts: Texts, op: Op, id: Id, s: Store, fault: Option<Fault>, reply: Bytes)
    requires Handle(texts, ReqOf(op, id), s, fault).reply == Some(reply)
    ensures EchoesId(CborWire(texts), reply, id)
  {
    HandleRepliesTo(texts, ReqOf(op, id), s, fault);
    ReplyReadsBack(Handle(texts, ReqOf(op, id), s, fault), id);
  }

  lemma RequestEchoes(texts: Texts, op: Op, id: Id, s: Store, fault: Option<Fault>)
    requires CborRequest(op, id).Some? && Serve(texts, CborRequest(op, id).value, s, fault).reply.Some?
    ensures EchoesId(CborWire(texts), Serve(texts, CborRequest(op, id).value, s, fault).reply.value, id)
  {
    AnsweredIsSendable(texts, op, id, s, fault);
    HandledEchoes(texts, op, id, s, fault, Serve(texts, CborRequest(op, id).value, s, fault).reply.value);
  }

  lemma OpenMeansReplied(texts: Texts, msg: Bytes, s: Store, fault: Option<Fault>)
    ensures Serve(texts, msg, s, fault).open ==> Serve(texts, msg, s, fault).reply.Some?
  {
    var p := UnmarshalReq(msg);
    if p.Got? {
      HandleRepliesTo(texts, p.value, s, fault);
    }
  }

  lemma CborEchoes(texts: Texts)
    ensures Echoes(CborWire(texts))
  {
    var w := CborWire(texts);
    forall op, id, s, f | w.request(op, id).Some? && w.serve(w.request(op, id).value, s, f).reply.Some?
      ensures EchoesId(w, w.serve(w.request(op, id).value, s, f).reply.value, id)
    {
      RequestEchoes(texts, op, id, s, f);
    }
    forall msg, s, f
      ensures w.serve(msg, s, f).open ==> w.serve(msg, s, f).reply.Some?
    {
      OpenMeansReplied(texts, msg, s, f);
    }
  }

  // -- what callers get

  /** The k-th request handled is this call's, and the reply is right for the store the server had then. */
  ghost predicate RightlyAnswered(texts: Texts, sys: System, id: Id, resp: NetRpcResp, k: nat) {
    && k < |sys.faults| && |sys.stores| == |sys.faults| + 1 && k < |sys.sentIds|
    && sys.sentIds[k] == id && id in sys.calls
    && Right(texts, sys.calls[id], resp, sys.stores[k], sys.faults[k], sys.stores[k + 1])
  }

  predicate Right(texts: Texts, op: Op, resp: NetRpcResp, s: Store, fault: Option<Fault>, after: Store) {
    match fault
    case None => after == Apply(op, s) && Interpret(op, resp) == Expected(texts, op, s)
    case Some(f) => after == f.left && Reportable(op, f) && Interpret(op, resp) == FaultAnswer(op, f)
  }

  lemma ServedRight(texts: Texts, op: Op, id: Id, s: Store, fault: Option<Fault>)
    requires CborRequest(op, id).Some? && Serve(texts, CborRequest(op, id).value, s, fault).reply.Some?
    ensures var served := Serve(texts, CborRequest(op, id).value, s, fault);
            CborReply(served.reply.value).Some?
            && Right(texts, op, CborReply(served.reply.value).value, s, fault, served.store)
  {
    AnsweredIsSendable(texts, op, id, s, fault);
    RequestEchoes(texts, op, id, s, fault);
    if fault.Some? {
      FaultyCall(texts, op, id, s, fault.value);
    } else {
      RemoteCall(texts, op, id, s);
    }
  }

  lemma ReplyIsRight(texts: Texts, sys: System, id: Id, resp: NetRpcResp, k: nat)
    requires SysInv(CborWire(texts), sys) && IsReply(CborWire(texts), sys.sentIds, sys.down, sys.received, id, resp, k)
    ensures RightlyAnswered(texts, sys, id, resp, k)
  {
    var w := CborWire(texts);
    assert RequestIs(w, sys.calls, sys.sentIds[k], sys.up[k]);
    assert RepliedOk(w, sys.up[k], sys.stores[k], sys.faults[k], sys.down[k]);
    assert ServedOk(w, sys.up[k], sys.stores[k], sys.faults[k], sys.stores[k + 1]);
    ServedRight(texts, sys.calls[id], id, sys.stores[k], sys.faults[k]);
  }

  /** In every run, every message a caller has been handed says that the store closed, or is the right answer to the
      caller's own request on the store the server had when it handled that request. */
  lemma AnswersAreRight(texts: Texts, s: Store, ss: seq<System>, acts: seq<Action>, n: nat, i: nat)
    requires SysRun(CborWire(texts), s, ss, acts) && n < |ss|
    requires i < |ss[n].client.chans| && ss[n].client.chans[i].sent != []
    ensures var sys, ch := ss[n], ss[n].client.chans[i];
            (sys.closing.Some? && ch.sent[0] == CloseMsg(ch.id, sys.closing.value))
            || exists k: nat :: RightlyAnswered(texts, sys, ch.id, ch.sent[0].resp, k)
  {
    var w, sys, ch := CborWire(texts), ss[n], ss[n].client.chans[i];
    CborEchoes(texts);
    MessagesAreReplies(w, s, ss, acts, n, i);
    if Replied(w, sys.sentIds, sys.down, sys.received, ch.id, ch.sent[0].resp) {
      var k: nat :| IsReply(w, sys.sentIds, sys.down, sys.received, ch.id, ch.sent[0].resp, k);
      ReplyIsRight(texts, sys, ch.id, ch.sent[0].resp, k);
    }
  }

  // -- without failures of the server's store

  predicate CallsKnown(calls: map<Id, Op>, ids: seq<Id>) {
    forall i | 0 <= i < |ids| :: ids[i] in calls
  }

  /** The store after running the calls one after the other, locally. */
  function After(s: Store, calls: map<Id, Op>, ids: seq<Id>): Store
    requires CallsKnown(calls, ids)
  {
    if ids == [] then s
    else Apply(calls[ids[|ids| - 1]], After(s, calls, ids[..|ids| - 1]))
  }

  predicate Faultless(faults: seq<Option<Fault>>) {
    forall i | 0 <= i < |faults| :: faults[i].None?
  }

  lemma HandledIsApplied(texts: Texts, sys: System, j: nat)
    requires SysInv(CborWire(texts), sys) && j < |sys.down| && sys.faults[j].None?
    ensures sys.sentIds[j] in sys.calls && sys.stores[j + 1] == Apply(sys.calls[sys.sentIds[j]], sys.stores[j])
  {
    var w, id := CborWire(texts), sys.sentIds[j];
    assert RequestIs(w, sys.calls, id, sys.up[j]);
    assert RepliedOk(w, sys.up[j], sys.stores[j], sys.faults[j], sys.down[j]);
    assert ServedOk(w, sys.up[j], sys.stores[j], sys.faults[j], sys.stores[j + 1]);
    ServedRight(texts, sys.calls[id], id, sys.stores[j], sys.faults[j]);
  }

  predicate Applied(calls: map<Id, Op>, ids: seq<Id>, stores: seq<Store>, j: nat) {
    && j < |ids| && j + 1 < |stores| && ids[j] in calls
    && stores[j + 1] == Apply(calls[ids[j]], stores[j])
  }

  lemma {:induction false} StoresAreSequential(s: Store, calls: map<Id, Op>, ids: seq<Id>, stores: seq<Store>, k: nat)
    requires k <= |ids| && k < |stores| && stores[0] == s
    requires forall j | 0 <= j < k :: Applied(calls, ids, stores, j)
    ensures CallsKnown(calls, ids[..k]) && stores[k] == After(s, calls, ids[..k])
  {
    forall j | 0 <= j < k
      ensures ids[..k][j] in calls
    {
      assert Applied(calls, ids, stores, j);
    }
    if k > 0 {
      StoresAreSequential(s, calls, ids, stores, k - 1);
      assert Applied(calls, ids, stores, k - 1);
      assert ids[..k][..k - 1] == ids[..k - 1];
    }
  }

  lemma RunIsSequential(texts: Texts, s: Store, sys: System, k: nat)
    requires SysInv(CborWire(texts), sys) && sys.stores[0] == s && Faultless(sys.faults) && k <= |sys.down|
    ensures CallsKnown(sys.calls, sys.sentIds[..k]) && sys.stores[k] == After(s, sys.calls, sys.sentIds[..k])
  {
    forall j | 0 <= j < k
      ensures Applied(sys.calls, sys.sentIds, sys.stores, j)
    {
      HandledIsApplied(texts, sys, j);
    }
    StoresAreSequential(s, sys.calls, sys.sentIds, sys.stores, k);
  }

  lemma ReplyIsLocal(texts: Texts, s: Store, sys: System, id: Id, resp: NetRpcResp, k: nat)
    requires SysInv(CborWire(texts), sys) && sys.stores[0] == s && Faultless(sys.faults)
    requires IsReply(CborWire(texts), sys.sentIds, sys.down, sys.received, id, resp, k)
    ensures LocalAnswer(texts, s, sys.calls, sys.sentIds, id, resp, k)
  {
    RunIsSequential(texts, s, sys, k);
    assert RightlyAnswered(texts, sys, id, resp, k) by {
      ReplyIsRight(texts, sys, id, resp, k);
    }
  }

  /** A remote store whose server's store never fails cannot be told from a local one: whatever a call is handed says
      that the store closed, or is the answer the call gives after the calls handled before it, run one after the
      other on the initial store. */
  lemma RemoteIsLocal(texts: Texts, s: Store, ss: seq<System>, acts: seq<Action>, n: nat, i: nat)
    requires SysRun(CborWire(texts), s, ss, acts) && n < |ss| && Faultless(ss[n].faults)
    requires i < |ss[n].client.chans| && ss[n].client.chans[i].sent != []
    ensures var sys, ch := ss[n], ss[n].client.chans[i];
            (sys.closing.Some? && ch.sent[0] == CloseMsg(ch.id, sys.closing.value))
            || exists k: nat :: LocalAnswer(texts, s, sys.calls, sys.sentIds, ch.id, ch.sent[0].resp, k)
  {
    var w, sys, ch := CborWire(texts), ss[n], ss[n].client.chans[i];
    CborEchoes(texts);
    MessagesAreReplies(w, s, ss, acts, n, i);
    if Replied(w, sys.sentIds, sys.down, sys.received, ch.id, ch.sent[0].resp) {
      var k: nat :| IsReply(w, sys.sentIds, sys.down, sys.received, ch.id, ch.sent[0].resp, k);
      ReplyIsLocal(texts, s, sys, ch.id, ch.sent[0].resp, k);
    }
  }

  predicate LocalAnswer(texts: Texts, s: Store, calls: map<Id, Op>, ids: seq<Id>, id: Id, resp: NetRpcResp, k: nat) {
    && k < |ids| && ids[k] == id && id in calls && CallsKnown(calls, ids[..k])
    && Interpret(calls[id], resp) == Expected(texts, calls[id], After(s, calls, ids[..k]))
  }
}
