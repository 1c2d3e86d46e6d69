/** The array-form wire format of the network blockstore (blockstore/cbor_gen.go): requests, responses and errors. */
module NetRpc {
  import opened Outcomes
  import opened Cbor

  datatype NetRpcReq = NetRpcReq(ty: Byte, id: Uint64, cids: seq<Cid>, data: seq<Bytes>)

  datatype NetRpcResp = NetRpcResp(ty: Byte, id: Uint64, data: Bytes)

  datatype NetRpcErr = NetRpcErr(ty: Byte, msg: Bytes, cid: Option<Cid>)

  function WriteBlob(b: Bytes): Bytes {
    WriteString(BYTE_STRING, b)
  }

  function ReadBlob(bs: Bytes): Parsed<Bytes> {
    ReadString(BYTE_STRING, BYTE_ARRAY_MAX_LEN, bs)
  }

  predicate GoodCid(c: Cid) { 0 < |c| < CID_MAX }

  predicate GoodBlob(b: Bytes) { |b| <= BYTE_ARRAY_MAX_LEN }

  /** What the marshaller agrees to write. */
  predicate Writable(t: NetRpcReq) {
    && |t.cids| <= MAX_LENGTH
    && (forall c | c in t.cids :: c != UNDEF)
    && |t.data| <= MAX_LENGTH
    && (forall b | b in t.data :: GoodBlob(b))
  }

  function CidList(cids: seq<Cid>): Bytes {
    WriteList(WriteCid, cids)
  }

  function BlobList(data: seq<Bytes>): Bytes {
    WriteList(WriteBlob, data)
  }

  function ReadCids(bs: Bytes): Parsed<seq<Cid>> {
    ReadList(ReadCid, bs)
  }

  function ReadBlobs(bs: Bytes): Parsed<seq<Bytes>> {
    ReadList(ReadBlob, bs)
  }

  /** The two leading fields of requests and responses. */
  function Front(fields: nat, ty: Byte, id: Uint64): Bytes
    requires fields < U64
  {
    Header(ARRAY, fields) + (Header(UNSIGNED, ty) + Header(UNSIGNED, id))
  }

  function ReadFront(fields: nat, bs: Bytes): (r: Parsed<(Byte, Uint64)>) {
    var (n, rest) :- ReadArgument(ARRAY, U64, bs);
    if n != fields then Fail
    else
      var (ty, others) :- ReadArgument(UNSIGNED, 255, rest);
      var (id, left) :- ReadArgument(UNSIGNED, U64 - 1, others);
      Got((ty, id), left)
  }

  function MarshalReq(t: NetRpcReq): Option<Bytes> {
    if Writable(t) then Some(Front(4, t.ty, t.id) + (CidList(t.cids) + BlobList(t.data))) else None
  }

  function UnmarshalReq(bs: Bytes): Parsed<NetRpcReq> {
    var (front, r0) :- ReadFront(4, bs);
    var (cids, r1) :- ReadCids(r0);
    var (data, r2) :- ReadBlobs(r1);
    Got(NetRpcReq(front.0, front.1, cids, data), r2)
  }

  function MarshalResp(t: NetRpcResp): Option<Bytes> {
    if GoodBlob(t.data) then Some(Front(3, t.ty, t.id) + WriteBlob(t.data)) else None
  }

  function UnmarshalResp(bs: Bytes): Parsed<NetRpcResp> {
    var (front, r0) :- ReadFront(3, bs);
    var (data, r1) :- ReadBlob(r0);
    Got(NetRpcResp(front.0, front.1, data), r1)
  }

  function WriteOptionalCid(c: Option<Cid>): Bytes {
    match c
    case None => [NULL]
    case Some(c) => WriteCid(c)
  }

  /** One byte is looked at: null means no CID, anything else is put back and must start one. */
  function ReadOptionalCid(bs: Bytes): Parsed<Option<Cid>> {
    if bs == [] then Fail
    else if bs[0] == NULL then Got(None, bs[1..])
    else
      var (c, rest) :- ReadCid(bs);
      Got(Some(c), rest)
  }

  function MarshalErr(t: NetRpcErr): Option<Bytes> {
    if |t.msg| > MAX_LENGTH || t.cid == Some(UNDEF) then None
    else Some(Header(ARRAY, 3) + (Header(UNSIGNED, t.ty) + (WriteString(TEXT_STRING, t.msg) + WriteOptionalCid(t.cid))))
  }

  function UnmarshalErr(bs: Bytes): Parsed<NetRpcErr> {
    var (n, r0) :- ReadArgument(ARRAY, U64, bs);
    if n != 3 then Fail
    else
      var (ty, r1) :- ReadArgument(UNSIGNED, 255, r0);
      var (msg, r2) :- ReadString(TEXT_STRING, MAX_LENGTH, r1);
      var (c, r3) :- ReadOptionalCid(r2);
      Got(NetRpcErr(ty, msg, c), r3)
  }

  // -- the parts

  lemma FrontRoundTrip(fields: nat, ty: Byte, id: Uint64, rest: Bytes)
    requires fields < U64
    ensures ReadFront(fields, Front(fields, ty, id) + rest) == Got((ty, id), rest)
  {
    var h, a, b := Header(ARRAY, fields), Header(UNSIGNED, ty), Header(UNSIGNED, id);
    Joined(h, a + b, rest);
    Joined(a, b, rest);
    ArgumentRoundTrip(ARRAY, U64, fields, a + (b + rest));
    ArgumentRoundTrip(UNSIGNED, 255, ty, b + rest);
    ArgumentRoundTrip(UNSIGNED, U64 - 1, id, rest);
  }

  lemma FrontInverse(fields: nat, bs: Bytes)
    requires fields < U64 && ReadFront(fields, bs).Got?
    ensures var p := ReadFront(fields, bs); bs == Front(fields, p.value.0, p.value.1) + p.rest
  {
    ArgumentInverse(ARRAY, U64, bs);
    var r0 := ReadArgument(ARRAY, U64, bs).rest;
    ArgumentInverse(UNSIGNED, 255, r0);
    var ty := ReadArgument(UNSIGNED, 255, r0);
    ArgumentInverse(UNSIGNED, U64 - 1, ty.rest);
    var id := ReadArgument(UNSIGNED, U64 - 1, ty.rest);
    var h, a, b := Header(ARRAY, fields), Header(UNSIGNED, ty.value), Header(UNSIGNED, id.value);
    Joined(h, a + b, id.rest);
    Joined(a, b, id.rest);
  }

  /** A list of CIDs is read back exactly when none of them is too long. */
  lemma CidsRoundTrip(cids: seq<Cid>, rest: Bytes)
    requires |cids| <= MAX_LENGTH && forall c | c in cids :: 0 < |c| < U64 - 1
    ensures ReadCids(CidList(cids) + rest) == if forall c | c in cids :: GoodCid(c) then Got(cids, rest) else Fail
  {
    forall c, r: Bytes | c in cids
      ensures ReadCid(WriteCid(c) + r) == if GoodCid(c) then Got(c, r) else Fail
    {
      CidRoundTrip(c, r);
    }
    if forall c | c in cids :: GoodCid(c) {
      ListRoundTrip(WriteCid, ReadCid, cids, rest);
    } else {
      ListHead(WriteCid, cids, rest);
      var bad := FirstBad(cids);
      AllRefused(WriteCid, ReadCid, cids, bad, rest);
    }
  }

  function FirstBad(cids: seq<Cid>): (i: nat)
    requires exists c | c in cids :: !GoodCid(c)
    ensures i < |cids| && !GoodCid(cids[i])
    ensures forall k | 0 <= k < i :: GoodCid(cids[k])
  {
    if !GoodCid(cids[0]) then 0 else 1 + FirstBad(cids[1..])
  }

  lemma CidsInverse(bs: Bytes)
    requires ReadCids(bs).Got?
    ensures var p := ReadCids(bs);
            |p.value| <= MAX_LENGTH && (forall c | c in p.value :: GoodCid(c)) && bs == CidList(p.value) + p.rest
  {
    forall b: Bytes {:trigger ReadCid(b)} | ReadCid(b).Got?
      ensures GoodCid(ReadCid(b).value) && b == WriteCid(ReadCid(b).value) + ReadCid(b).rest
    {
      CidInverse(b);
    }
    ListInverse(WriteCid, ReadCid, GoodCid, bs);
  }

  lemma BlobsRoundTrip(data: seq<Bytes>, rest: Bytes)
    requires |data| <= MAX_LENGTH && forall b | b in data :: GoodBlob(b)
    ensures ReadBlobs(BlobList(data) + rest) == Got(data, rest)
  {
    forall b, r: Bytes | b in data
      ensures ReadBlob(WriteBlob(b) + r) == Got(b, r)
    {
      StringRoundTrip(BYTE_STRING, BYTE_ARRAY_MAX_LEN, b, r);
    }
    ListRoundTrip(WriteBlob, ReadBlob, data, rest);
  }

  lemma BlobsInverse(bs: Bytes)
    requires ReadBlobs(bs).Got?
    ensures var p := ReadBlobs(bs);
            |p.value| <= MAX_LENGTH && (forall b | b in p.value :: GoodBlob(b)) && bs == BlobList(p.value) + p.rest
  {
    forall b: Bytes {:trigger ReadBlob(b)} | ReadBlob(b).Got?
      ensures GoodBlob(ReadBlob(b).value) && b == WriteBlob(ReadBlob(b).value) + ReadBlob(b).rest
    {
      StringInverse(BYTE_STRING, BYTE_ARRAY_MAX_LEN, b);
    }
    ListInverse(WriteBlob, ReadBlob, GoodBlob, bs);
  }

  lemma OptionalCidRoundTrip(c: Option<Cid>, rest: Bytes)
    requires c.Some? ==> 0 < |c.value| < U64 - 1
    ensures ReadOptionalCid(WriteOptionalCid(c) + rest) == if c.Some? ==> GoodCid(c.value) then Got(c, rest) else Fail
  {
    if c.Some? {
      CidRoundTrip(c.value, rest);
    } else {
      Joined([], [NULL], rest);
    }
  }

  lemma OptionalCidInverse(bs: Bytes)
    requires ReadOptionalCid(bs).Got?
    ensures var p := ReadOptionalCid(bs);
            (p.value.Some? ==> GoodCid(p.value.value)) && bs == WriteOptionalCid(p.value) + p.rest
  {
    if bs[0] != NULL {
      CidInverse(bs);
    }
  }

  // -- whole messages

  /** A written request, followed by anything, is read back as itself and leaves exactly what followed, unless one
      of its CIDs is longer than the reader accepts; then it is refused. */
  lemma ReqRoundTrip(t: NetRpcReq, rest: Bytes)
    requires MarshalReq(t).Some? && forall c | c in t.cids :: |c| < U64 - 1
    ensures UnmarshalReq(MarshalReq(t).value + rest)
         == if forall c | c in t.cids :: GoodCid(c) then Got(t, rest) else Fail
  {
    var f, cs, ds := Front(4, t.ty, t.id), CidList(t.cids), BlobList(t.data);
    Joined(f, cs + ds, rest);
    Joined(cs, ds, rest);
    FrontRoundTrip(4, t.ty, t.id, cs + (ds + rest));
    CidsRoundTrip(t.cids, ds + rest);
    BlobsRoundTrip(t.data, rest);
  }

  /** The only bytes read as a request are the ones that request is written as. */
  lemma ReqInverse(bs: Bytes)
    requires UnmarshalReq(bs).Got?
    ensures var p := UnmarshalReq(bs);
            (forall c | c in p.value.cids :: GoodCid(c)) && MarshalReq(p.value).Some?
            && bs == MarshalReq(p.value).value + p.rest
  {
    FrontInverse(4, bs);
    var r0 := ReadFront(4, bs).rest;
    CidsInverse(r0);
    var cids := ReadCids(r0);
    BlobsInverse(cids.rest);
    var p := UnmarshalReq(bs);
    var f, cs, ds := Front(4, p.value.ty, p.value.id), CidList(p.value.cids), BlobList(p.value.data);
    Joined(f, cs + ds, p.rest);
    Joined(cs, ds, p.rest);
  }

  lemma RespRoundTrip(t: NetRpcResp, rest: Bytes)
    requires MarshalResp(t).Some?
    ensures UnmarshalResp(MarshalResp(t).value + rest) == Got(t, rest)
  {
    var f, d := Front(3, t.ty, t.id), WriteBlob(t.data);
    Joined(f, d, rest);
    FrontRoundTrip(3, t.ty, t.id, d + rest);
    StringRoundTrip(BYTE_STRING, BYTE_ARRAY_MAX_LEN, t.data, rest);
  }

  lemma RespInverse(bs: Bytes)
    requires UnmarshalResp(bs).Got?
    ensures var p := UnmarshalResp(bs); MarshalResp(p.value).Some? && bs == MarshalResp(p.value).value + p.rest
  {
    FrontInverse(3, bs);
    var r0 := ReadFront(3, bs).rest;
    StringInverse(BYTE_STRING, BYTE_ARRAY_MAX_LEN, r0);
    var p := UnmarshalResp(bs);
    Joined(Front(3, p.value.ty, p.value.id), WriteBlob(p.value.data), p.rest);
  }

  lemma ErrRoundTrip(t: NetRpcErr, rest: Bytes)
    requires MarshalErr(t).Some? && (t.cid.Some? ==> |t.cid.value| < U64 - 1)
    ensures UnmarshalErr(MarshalErr(t).value + rest)
         == if t.cid.Some? ==> GoodCid(t.cid.value) then Got(t, rest) else Fail
  {
    var h, a := Header(ARRAY, 3), Header(UNSIGNED, t.ty);
    var m, c := WriteString(TEXT_STRING, t.msg), WriteOptionalCid(t.cid);
    Joined(h, a + (m + c), rest);
    Joined(a, m + c, rest);
    Joined(m, c, rest);
    ArgumentRoundTrip(ARRAY, U64, 3, a + (m + (c + rest)));
    ArgumentRoundTrip(UNSIGNED, 255, t.ty, m + (c + rest));
    StringRoundTrip(TEXT_STRING, MAX_LENGTH, t.msg, c + rest);
    OptionalCidRoundTrip(t.cid, rest);
  }

  lemma ErrInverse(bs: Bytes)
    requires UnmarshalErr(bs).Got?
    ensures var p := UnmarshalErr(bs);
            (p.value.cid.Some? ==> GoodCid(p.value.cid.value)) && MarshalErr(p.value).Some?
            && bs == MarshalErr(p.value).value + p.rest
  {
    ArgumentInverse(ARRAY, U64, bs);
    var r0 := ReadArgument(ARRAY, U64, bs).rest;
    ArgumentInverse(UNSIGNED, 255, r0);
    var ty := ReadArgument(UNSIGNED, 255, r0);
    StringInverse(TEXT_STRING, MAX_LENGTH, ty.rest);
    var msg := ReadString(TEXT_STRING, MAX_LENGTH, ty.rest);
    OptionalCidInverse(msg.rest);
    var p := UnmarshalErr(bs);
    var h, a := Header(ARRAY, 3), Header(UNSIGNED, ty.value);
    var m, c := WriteString(TEXT_STRING, msg.value), WriteOptionalCid(p.value.cid);
    Joined(h, a + (m + c), p.rest);
    Joined(a, m + c, p.rest);
    Joined(m, c, p.rest);
  }
}
