/** One remote call: the request a client operation makes (blockstore/net.go), what the server does with it
    (blockstore/net_serve.go) and what the client makes of the reply. */
module NetServer {
  import opened Outcomes
  import opened Cbor
  import opened NetRpc

  const REQ_HAS: Byte := 0
  const REQ_GET: Byte := 1
  const REQ_GET_SIZE: Byte := 2
  const REQ_PUT: Byte := 3
  const REQ_DELETE: Byte := 4

  const RESP_OK: Byte := 0
  const RESP_ERR: Byte := 1
  const RESP_MORE: Byte := 2

  const ERR_GENERIC: Byte := 0
  const ERR_NOT_FOUND: Byte := 1

  type Store = map<Cid, Bytes>

  datatype Block = Block(cid: Cid, data: Bytes)

  datatype Op = Has(c: Cid) | Get(c: Cid) | GetSize(c: Cid) | PutMany(blocks: seq<Block>) | DeleteMany(cids: seq<Cid>)

  /** What a client operation returns. */
  datatype Answer =
    | Bool(b: bool)
    | Found(block: Block)
    | Size(n: nat)
    | Done
    | NotFound(c: Cid, msg: Bytes)
    | Refused(msg: Bytes)
    | BadReply

  /** The error texts the server composes. */
  datatype Texts = Texts(oneCid: Bytes, mismatch: Bytes, unsupported: Bytes, tooLong: Bytes, notFound: Cid -> Bytes)

  /** A failure of the server's own store: the error, and what it left the store as. */
  datatype Fault = Fault(notFound: bool, text: Bytes, left: Store)

  /** What handling one request comes to: a reply perhaps, the stream open or closed, and the store. */
  datatype Served = Served(reply: Option<Bytes>, open: bool, store: Store)

  // -- the client's side of a request

  function CidsOf(blocks: seq<Block>): seq<Cid> {
    seq(|blocks|, i requires 0 <= i < |blocks| => blocks[i].cid)
  }

  function DataOf(blocks: seq<Block>): seq<Bytes> {
    seq(|blocks|, i requires 0 <= i < |blocks| => blocks[i].data)
  }

  function ReqOf(op: Op, id: Uint64): NetRpcReq {
    match op
    case Has(c) => NetRpcReq(REQ_HAS, id, [c], [])
    case Get(c) => NetRpcReq(REQ_GET, id, [c], [])
    case GetSize(c) => NetRpcReq(REQ_GET_SIZE, id, [c], [])
    case PutMany(blocks) => NetRpcReq(REQ_PUT, id, CidsOf(blocks), DataOf(blocks))
    case DeleteMany(cids) => NetRpcReq(REQ_DELETE, id, cids, [])
  }

  // -- the server

  function PutAll(s: Store, blocks: seq<Block>): Store {
    if blocks == [] then s
    else PutAll(s, blocks[..|blocks| - 1])[blocks[|blocks| - 1].cid := blocks[|blocks| - 1].data]
  }

  function DeleteAll(s: Store, cids: seq<Cid>): Store {
    s - set i | 0 <= i < |cids| :: cids[i]
  }

  function Respond(id: Uint64, ty: Byte, data: Bytes): Option<Bytes> {
    MarshalResp(NetRpcResp(ty, id, data))
  }

  function RespondError(id: Uint64, notFound: bool, text: Bytes, c: Cid): Option<Bytes> {
    var err := if notFound then NetRpcErr(ERR_NOT_FOUND, text, Some(c)) else NetRpcErr(ERR_GENERIC, text, None);
    match MarshalErr(err)
    case None => None
    case Some(data) => Respond(id, RESP_ERR, data)
  }

  /** After an error reply the loop goes on, unless the reply itself could not be written. */
  function Refuse(id: Uint64, notFound: bool, text: Bytes, c: Cid, s: Store): Served {
    var reply := RespondError(id, notFound, text, c);
    Served(reply, reply.Some?, s)
  }

  function Accept(id: Uint64, data: Bytes, s: Store): Served {
    var reply := Respond(id, RESP_OK, data);
    Served(reply, reply.Some?, s)
  }

  function LittleEndian32(n: nat): Bytes {
    [n % 256, n / 256 % 256, n / 256 / 256 % 256, n / 256 / 256 / 256 % 256]
  }

  function FromLittleEndian(bs: Bytes): nat {
    if bs == [] then 0 else bs[0] + 256 * FromLittleEndian(bs[1..])
  }

  function Blocks(cids: seq<Cid>, data: seq<Bytes>): seq<Block>
    requires |cids| == |data|
  {
    seq(|cids|, i requires 0 <= i < |cids| => Block(cids[i], data[i]))
  }

  /** The reading requests name one CID. A block too long for a reply is answered with an error. */
  function HandleRead(texts: Texts, req: NetRpcReq, c: Cid, s: Store): Served {
    if req.ty == REQ_HAS then Accept(req.id, [if c in s then TRUE else FALSE], s)
    else if c !in s then Refuse(req.id, true, texts.notFound(c), c, s)
    else if req.ty == REQ_GET then
      if GoodBlob(s[c]) then Accept(req.id, s[c], s) else Refuse(req.id, false, texts.tooLong, c, s)
    else Accept(req.id, LittleEndian32(|s[c]|), s)
  }

  function Handle(texts: Texts, req: NetRpcReq, s: Store, fault: Option<Fault>): Served {
    if req.ty == REQ_HAS || req.ty == REQ_GET || req.ty == REQ_GET_SIZE then
      if |req.cids| != 1 then Refuse(req.id, false, texts.oneCid, UNDEF, s)
      else if fault.Some? then Refuse(req.id, fault.value.notFound, fault.value.text, req.cids[0], fault.value.left)
      else HandleRead(texts, req, req.cids[0], s)
    else if req.ty == REQ_PUT then
      if |req.cids| != |req.data| then Refuse(req.id, false, texts.mismatch, UNDEF, s).(open := false)
      else if fault.Some? then Refuse(req.id, fault.value.notFound, fault.value.text, UNDEF, fault.value.left)
      else Accept(req.id, [], PutAll(s, Blocks(req.cids, req.data)))
    else if req.ty == REQ_DELETE then
      if fault.Some? then Refuse(req.id, fault.value.notFound, fault.value.text, UNDEF, fault.value.left)
      else Accept(req.id, [], DeleteAll(s, req.cids))
    else Refuse(req.id, false, texts.unsupported, UNDEF, s)
  }

  /** A message that is not a request ends the loop without a reply. */
  function Serve(texts: Texts, msg: Bytes, s: Store, fault: Option<Fault>): Served {
    match UnmarshalReq(msg)
    case Fail => Served(None, false, s)
    case Got(req, _) => Handle(texts, req, s, fault)
  }

  // -- the client's side of a reply

  function ErrorAnswer(data: Bytes): Answer {
    match UnmarshalErr(data)
    case Fail => BadReply
    case Got(e, _) => if e.ty == ERR_NOT_FOUND && e.cid.Some? then NotFound(e.cid.value, e.msg) else Refused(e.msg)
  }

  function Interpret(op: Op, resp: NetRpcResp): Answer {
    if resp.ty == RESP_ERR then ErrorAnswer(resp.data)
    else match op
      case Has(_) =>
        if |resp.data| != 1 then BadReply
        else if resp.data[0] == TRUE then Bool(true)
        else if resp.data[0] == FALSE then Bool(false)
        else BadReply
      case Get(c) => Found(Block(c, resp.data))
      case GetSize(_) => if |resp.data| != 4 then BadReply else Size(FromLittleEndian(resp.data))
      case PutMany(_) => Done
      case DeleteMany(_) => Done
  }

  // -- the same operation on the server's store

  function Apply(op: Op, s: Store): Store {
    match op
    case PutMany(blocks) => PutAll(s, blocks)
    case DeleteMany(cids) => DeleteAll(s, cids)
    case _ => s
  }

  /** The sizes are sent in 32 bits, and a reply holds no more than the longest byte string. */
  function Expected(texts: Texts, op: Op, s: Store): Answer {
    match op
    case Has(c) => Bool(c in s)
    case Get(c) =>
      if c !in s then NotFound(c, texts.notFound(c))
      else if |s[c]| <= BYTE_ARRAY_MAX_LEN then Found(Block(c, s[c]))
      else Refused(texts.tooLong)
    case GetSize(c) => if c in s then Size(|s[c]| % 0x1_0000_0000) else NotFound(c, texts.notFound(c))
    case PutMany(_) => Done
    case DeleteMany(_) => Done
  }

  /** Putting many leaves every CID with the data of the last block put under it, or as it was. */
  lemma {:induction false} LastPutWins(s: Store, blocks: seq<Block>, c: Cid, i: nat)
    requires i < |blocks| && blocks[i].cid == c && forall j | i < j < |blocks| :: blocks[j].cid != c
    ensures c in PutAll(s, blocks) && PutAll(s, blocks)[c] == blocks[i].data
  {
    if i < |blocks| - 1 {
      LastPutWins(s, blocks[..|blocks| - 1], c, i);
    }
  }

  lemma {:induction false} OthersUntouched(s: Store, blocks: seq<Block>, c: Cid)
    requires forall j | 0 <= j < |blocks| :: blocks[j].cid != c
    ensures c in PutAll(s, blocks) <==> c in s
    ensures c in s ==> PutAll(s, blocks)[c] == s[c]
  {
    if blocks != [] {
      OthersUntouched(s, blocks[..|blocks| - 1], c);
    }
  }

  /** The error text the answer needs, if it needs one, can be written. */
  predicate TextFits(texts: Texts, op: Op, s: Store) {
    match op
    case Get(c) =>
      if c !in s then |texts.notFound(c)| <= MAX_LENGTH else GoodBlob(s[c]) || |texts.tooLong| <= MAX_LENGTH
    case GetSize(c) => c in s || |texts.notFound(c)| <= MAX_LENGTH
    case _ => true
  }

  /** The client agrees to send it, and the server to read it. */
  predicate Sendable(op: Op, id: Uint64) {
    MarshalReq(ReqOf(op, id)).Some? && forall c | c in ReqOf(op, id).cids :: GoodCid(c)
  }

  /** No CID is so long that its length would not fit in 64 bits. */
  predicate SaneCids(op: Op, id: Uint64) {
    forall c | c in ReqOf(op, id).cids :: |c| < U64 - 1
  }

  lemma ErrIsShort(t: NetRpcErr)
    requires MarshalErr(t).Some? && (t.cid.Some? ==> GoodCid(t.cid.value))
    ensures |MarshalErr(t).value| <= BYTE_ARRAY_MAX_LEN
  {
    assert |WriteString(TEXT_STRING, t.msg)| <= 9 + MAX_LENGTH;
    if t.cid.Some? {
      var c := t.cid.value;
      assert |WriteString(BYTE_STRING, [0] + c)| <= 9 + CID_MAX;
      assert |WriteCid(c)| <= 18 + CID_MAX;
    }
  }

  /** What the client sees of an error reply. */
  lemma ErrorArrives(op: Op, id: Uint64, notFound: bool, text: Bytes, c: Cid)
    requires |text| <= MAX_LENGTH && (notFound ==> GoodCid(c))
    ensures var reply := RespondError(id, notFound, text, c);
            reply.Some? && UnmarshalResp(reply.value).Got? && UnmarshalResp(reply.value).value.id == id
            && UnmarshalResp(reply.value).value.ty == RESP_ERR
            && Interpret(op, UnmarshalResp(reply.value).value) == if notFound then NotFound(c, text) else Refused(text)
  {
    var err := if notFound then NetRpcErr(ERR_NOT_FOUND, text, Some(c)) else NetRpcErr(ERR_GENERIC, text, None);
    ErrIsShort(err);
    var data := MarshalErr(err).value;
    ErrRoundTrip(err, []);
    assert data + [] == data;
    ReplyArrives(id, RESP_ERR, data);
  }

  lemma ReplyArrives(id: Uint64, ty: Byte, data: Bytes)
    requires GoodBlob(data)
    ensures var reply := Respond(id, ty, data);
            reply.Some? && UnmarshalResp(reply.value) == Got(NetRpcResp(ty, id, data), [])
  {
    var t := NetRpcResp(ty, id, data);
    RespRoundTrip(t, []);
    assert MarshalResp(t).value + [] == MarshalResp(t).value;
  }

  lemma LowBytes(n: nat, a: Byte, b: Byte, c: Byte, d: Byte, high: nat)
    requires n == a + 256 * (b + 256 * (c + 256 * (d + 256 * high)))
    ensures n % 0x1_0000_0000 == a + 256 * (b + 256 * (c + 256 * d))
  {
    var low := a + 256 * (b + 256 * (c + 256 * d));
    assert n == 0x1_0000_0000 * high + low && 0 <= low < 0x1_0000_0000;
  }

  lemma SizeArrives(n: nat)
    ensures FromLittleEndian(LittleEndian32(n)) == n % 0x1_0000_0000
  {
    var bs := LittleEndian32(n);
    LowBytes(n, bs[0], bs[1], bs[2], bs[3], n / 256 / 256 / 256 / 256);
    FourBytes(bs[0], bs[1], bs[2], bs[3]);
  }

  lemma FourBytes(a: Byte, b: Byte, c: Byte, d: Byte)
    ensures FromLittleEndian([a, b, c, d]) == a + 256 * (b + 256 * (c + 256 * d))
  {
    assert [a, b, c, d][1..] == [b, c, d] && [b, c, d][1..] == [c, d] && [c, d][1..] == [d];
    assert FromLittleEndian([d]) == d;
    assert FromLittleEndian([c, d]) == c + 256 * d;
  }

  lemma MessageArrives(t: NetRpcReq)
    requires MarshalReq(t).Some? && forall c | c in t.cids :: GoodCid(c)
    ensures UnmarshalReq(MarshalReq(t).value) == Got(t, [])
  {
    ReqRoundTrip(t, []);
    assert MarshalReq(t).value + [] == MarshalReq(t).value;
  }

  lemma MessageRefused(t: NetRpcReq)
    requires MarshalReq(t).Some? && forall c | c in t.cids :: |c| < U64 - 1
    requires exists c | c in t.cids :: !GoodCid(c)
    ensures UnmarshalReq(MarshalReq(t).value) == Fail
  {
    ReqRoundTrip(t, []);
    assert MarshalReq(t).value + [] == MarshalReq(t).value;
  }

  lemma ServeIsHandle(texts: Texts, op: Op, id: Uint64, s: Store, fault: Option<Fault>)
    requires Sendable(op, id)
    ensures Serve(texts, MarshalReq(ReqOf(op, id)).value, s, fault) == Handle(texts, ReqOf(op, id), s, fault)
  {
    MessageArrives(ReqOf(op, id));
  }

  /** The request of a put carries the blocks. */
  lemma BlocksArrive(blocks: seq<Block>, id: Uint64)
    ensures var req := ReqOf(PutMany(blocks), id);
            |req.cids| == |req.data|
            && Blocks(req.cids, req.data) == blocks
  {
  }

  /** What a reply says to the client that waits for it. */
  ghost predicate Answers(served: Served, op: Op, id: Uint64, answer: Answer) {
    && served.reply.Some? && served.open
    && var p := UnmarshalResp(served.reply.value);
      p.Got? && p.value.id == id && p.value.ty != RESP_MORE && Interpret(op, p.value) == answer
  }

  /** What a call comes to: the answer, if its text can be written, and the end of the stream otherwise. */
  ghost predicate Settles(served: Served, texts: Texts, op: Op, id: Uint64, s: Store) {
    && served.store == Apply(op, s)
    && if TextFits(texts, op, s) then Answers(served, op, id, Expected(texts, op, s))
       else served.reply.None? && !served.open
  }

  lemma HasSettles(texts: Texts, c: Cid, id: Uint64, s: Store)
    ensures Settles(HandleRead(texts, ReqOf(Has(c), id), c, s), texts, Has(c), id, s)
  {
    ReplyArrives(id, RESP_OK, [if c in s then TRUE else FALSE]);
  }

  lemma AbsentSettles(texts: Texts, op: Op, id: Uint64, s: Store)
    requires (op.Get? || op.GetSize?) && GoodCid(op.c) && op.c !in s
    ensures Settles(Refuse(id, true, texts.notFound(op.c), op.c, s), texts, op, id, s)
  {
    if TextFits(texts, op, s) {
      ErrorArrives(op, id, true, texts.notFound(op.c), op.c);
    }
  }

  lemma GetSettles(texts: Texts, c: Cid, id: Uint64, s: Store)
    requires c in s
    ensures Settles(HandleRead(texts, ReqOf(Get(c), id), c, s), texts, Get(c), id, s)
  {
    if GoodBlob(s[c]) {
      ReplyArrives(id, RESP_OK, s[c]);
    } else if TextFits(texts, Get(c), s) {
      ErrorArrives(Get(c), id, false, texts.tooLong, c);
    }
  }

  lemma GetSizeSettles(texts: Texts, c: Cid, id: Uint64, s: Store)
    requires c in s
    ensures Settles(HandleRead(texts, ReqOf(GetSize(c), id), c, s), texts, GetSize(c), id, s)
  {
    ReplyArrives(id, RESP_OK, LittleEndian32(|s[c]|));
    SizeArrives(|s[c]|);
  }

  lemma ReadSettles(texts: Texts, op: Op, id: Uint64, s: Store)
    requires (op.Has? || op.Get? || op.GetSize?) && GoodCid(op.c)
    ensures Settles(HandleRead(texts, ReqOf(op, id), op.c, s), texts, op, id, s)
  {
    if op.Has? {
      HasSettles(texts, op.c, id, s);
    } else if op.c !in s {
      AbsentSettles(texts, op, id, s);
    } else if op.Get? {
      GetSettles(texts, op.c, id, s);
    } else {
      GetSizeSettles(texts, op.c, id, s);
    }
  }

  lemma AcceptAnswers(op: Op, id: Uint64, s: Store)
    requires op.PutMany? || op.DeleteMany?
    ensures Accept(id, [], s).store == s && Answers(Accept(id, [], s), op, id, Done)
  {
    ReplyArrives(id, RESP_OK, []);
  }

  lemma WriteIsAccept(texts: Texts, op: Op, id: Uint64, s: Store)
    requires op.PutMany? || op.DeleteMany?
    ensures Handle(texts, ReqOf(op, id), s, None) == Accept(id, [], Apply(op, s))
  {
    if op.PutMany? {
      BlocksArrive(op.blocks, id);
    }
  }

  lemma ReadIsRead(texts: Texts, op: Op, id: Uint64, s: Store)
    requires op.Has? || op.Get? || op.GetSize?
    ensures Handle(texts, ReqOf(op, id), s, None) == HandleRead(texts, ReqOf(op, id), op.c, s)
  {
  }

  /** A remote call gives the answer, and leaves the store, that the same operation gives on the server's store; if
      the answer is an error whose text is too long to write, the stream ends instead. */
  lemma RemoteCall(texts: Texts, op: Op, id: Uint64, s: Store)
    requires Sendable(op, id)
    ensures Settles(Serve(texts, MarshalReq(ReqOf(op, id)).value, s, None), texts, op, id, s)
  {
    ServeIsHandle(texts, op, id, s, None);
    if op.PutMany? || op.DeleteMany? {
      WriteIsAccept(texts, op, id, s);
      AcceptAnswers(op, id, Apply(op, s));
    } else {
      assert op.c in ReqOf(op, id).cids;
      ReadIsRead(texts, op, id, s);
      ReadSettles(texts, op, id, s);
    }
  }

  /** Whether a failure of the server's store can be reported: its text fits, and a not-found one has a CID to name. */
  predicate Reportable(op: Op, fault: Fault) {
    |fault.text| <= MAX_LENGTH && (fault.notFound ==> op.Has? || op.Get? || op.GetSize?)
  }

  function FaultAnswer(op: Op, fault: Fault): Answer
    requires Reportable(op, fault)
  {
    if fault.notFound then NotFound(op.c, fault.text) else Refused(fault.text)
  }

  function Named(op: Op): Cid {
    if op.Has? || op.Get? || op.GetSize? then op.c else UNDEF
  }

  lemma FaultIsRefuse(texts: Texts, op: Op, id: Uint64, s: Store, fault: Fault)
    ensures Handle(texts, ReqOf(op, id), s, Some(fault))
         == Refuse(id, fault.notFound, fault.text, Named(op), fault.left)
  {
    if op.PutMany? {
      BlocksArrive(op.blocks, id);
    }
  }

  lemma RefuseAnswers(op: Op, id: Uint64, fault: Fault)
    requires op.Has? || op.Get? || op.GetSize? ==> GoodCid(op.c)
    ensures var served := Refuse(id, fault.notFound, fault.text, Named(op), fault.left);
            served.store == fault.left
            && if Reportable(op, fault) then Answers(served, op, id, FaultAnswer(op, fault))
               else served.reply.None? && !served.open
  {
    if Reportable(op, fault) {
      ErrorArrives(op, id, fault.notFound, fault.text, Named(op));
    }
  }

  /** A failure of the server's store reaches the client if it can be reported, and ends the stream otherwise. */
  lemma FaultyCall(texts: Texts, op: Op, id: Uint64, s: Store, fault: Fault)
    requires Sendable(op, id)
    ensures var served := Serve(texts, MarshalReq(ReqOf(op, id)).value, s, Some(fault));
            served.store == fault.left
            && if Reportable(op, fault) then Answers(served, op, id, FaultAnswer(op, fault))
               else served.reply.None? && !served.open
  {
    ServeIsHandle(texts, op, id, s, Some(fault));
    FaultIsRefuse(texts, op, id, s, fault);
    assert op.Has? || op.Get? || op.GetSize? ==> op.c in ReqOf(op, id).cids;
    RefuseAnswers(op, id, fault);
  }

  /** A remote size is the real one exactly when it fits in 32 bits. */
  lemma RemoteSizeExact(texts: Texts, c: Cid, s: Store)
    requires c in s
    ensures Expected(texts, GetSize(c), s) == Size(|s[c]|) <==> |s[c]| < 0x1_0000_0000
  {
  }

  /** A request with a CID longer than the reader accepts ends the stream and changes nothing. */
  lemma LongCidClosesStream(texts: Texts, op: Op, id: Uint64, s: Store, fault: Option<Fault>)
    requires MarshalReq(ReqOf(op, id)).Some? && SaneCids(op, id) && !Sendable(op, id)
    ensures Serve(texts, MarshalReq(ReqOf(op, id)).value, s, fault) == Served(None, false, s)
  {
    MessageRefused(ReqOf(op, id));
  }

  /** A put whose CIDs and data do not match in number. */
  predicate Mismatched(req: NetRpcReq) {
    req.ty == REQ_PUT && |req.cids| != |req.data|
  }

  /** Such a put changes nothing and ends the stream; before that the sender is told, if the text can be written. */
  lemma MismatchEndsStream(texts: Texts, req: NetRpcReq, op: Op, s: Store, fault: Option<Fault>)
    requires MarshalReq(req).Some? && (forall c | c in req.cids :: GoodCid(c)) && Mismatched(req)
    ensures var served := Serve(texts, MarshalReq(req).value, s, fault);
            && !served.open && served.store == s
            && (served.reply.Some? <==> |texts.mismatch| <= MAX_LENGTH)
            && (served.reply.Some? ==>
                  var p := UnmarshalResp(served.reply.value);
                  p.Got? && p.value.id == req.id && Interpret(op, p.value) == Refused(texts.mismatch))
  {
    MessageArrives(req);
    if |texts.mismatch| <= MAX_LENGTH {
      ErrorArrives(op, req.id, false, texts.mismatch, UNDEF);
    }
  }

  /** What the server has against a request that it does not pass on to its store, unless the request is such a put:
      a read names other than one CID, or there is no such kind of request. */
  function Complaint(texts: Texts, req: NetRpcReq): Option<Bytes> {
    if req.ty == REQ_HAS || req.ty == REQ_GET || req.ty == REQ_GET_SIZE then
      if |req.cids| != 1 then Some(texts.oneCid) else None
    else if req.ty == REQ_PUT || req.ty == REQ_DELETE then None
    else Some(texts.unsupported)
  }

  lemma ComplaintIsRefuse(texts: Texts, req: NetRpcReq, s: Store, fault: Option<Fault>)
    requires Complaint(texts, req).Some?
    ensures Handle(texts, req, s, fault) == Refuse(req.id, false, Complaint(texts, req).value, UNDEF, s)
  {
  }

  /** Such a request changes nothing, its sender is told, and the loop goes on; only if the text cannot be written does
      the stream end, without a reply. */
  lemma ComplaintIsAnswered(texts: Texts, req: NetRpcReq, op: Op, s: Store, fault: Option<Fault>)
    requires MarshalReq(req).Some? && (forall c | c in req.cids :: GoodCid(c)) && Complaint(texts, req).Some?
    ensures var served, text := Serve(texts, MarshalReq(req).value, s, fault), Complaint(texts, req).value;
            && served.store == s
            && if |text| <= MAX_LENGTH then Answers(served, op, req.id, Refused(text))
               else served.reply.None? && !served.open
  {
    MessageArrives(req);
    ComplaintIsRefuse(texts, req, s, fault);
    var text := Complaint(texts, req).value;
    if |text| <= MAX_LENGTH {
      ErrorArrives(op, req.id, false, text, UNDEF);
    }
  }

  /** After any other request the loop goes on if and only if the reply can be written. */
  lemma GoesOnExactly(texts: Texts, req: NetRpcReq, s: Store, fault: Option<Fault>)
    ensures var served := Handle(texts, req, s, fault); served.open <==> !Mismatched(req) && served.reply.Some?
  {
  }
}
