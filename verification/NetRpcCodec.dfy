/** The marshallers and unmarshallers as the source writes them: appending to a writer, consuming a reader. */
module NetRpcCodec {
  import opened Outcomes
  import opened Cbor
  import opened CborStreams
  import opened NetRpc

  method MarshalCids(cids: seq<Cid>, w: CborWriter) returns (ok: bool)
    modifies w
    ensures ok <==> |cids| <= MAX_LENGTH && forall x | x in cids :: x != UNDEF
    ensures ok ==> w.out == old(w.out) + CidList(cids)
  {
    if |cids| > MAX_LENGTH {
      return false;
    }
    w.WriteMajorTypeHeader(ARRAY, |cids|);
    ghost var start := w.out;
    var i := 0;
    while i < |cids|
      invariant i <= |cids|
      invariant forall x | x in cids[..i] :: x != UNDEF
      invariant w.out == start + WriteAll(WriteCid, cids[..i])
    {
      assert cids[i] in cids;
      if cids[i] == UNDEF {
        return false;
      }
      w.Write(WriteCid(cids[i]));
      WriteStep(WriteCid, cids, i, start);
      assert cids[..i + 1] == cids[..i] + [cids[i]];
      i := i + 1;
    }
    assert cids[..i] == cids;
    Joined(old(w.out), Header(ARRAY, |cids|), WriteAll(WriteCid, cids));
    ok := true;
  }

  method MarshalBlob(b: Bytes, w: CborWriter)
    requires GoodBlob(b)
    modifies w
    ensures w.out == old(w.out) + WriteBlob(b)
  {
    w.WriteMajorTypeHeader(BYTE_STRING, |b|);
    w.Write(b);
    Joined(old(w.out), Header(BYTE_STRING, |b|), b);
  }

  method MarshalBlobs(data: seq<Bytes>, w: CborWriter) returns (ok: bool)
    modifies w
    ensures ok <==> |data| <= MAX_LENGTH && forall x | x in data :: GoodBlob(x)
    ensures ok ==> w.out == old(w.out) + BlobList(data)
  {
    if |data| > MAX_LENGTH {
      return false;
    }
    w.WriteMajorTypeHeader(ARRAY, |data|);
    ghost var start := w.out;
    var i := 0;
    while i < |data|
      invariant i <= |data|
      invariant forall x | x in data[..i] :: GoodBlob(x)
      invariant w.out == start + WriteAll(WriteBlob, data[..i])
    {
      assert data[i] in data;
      if |data[i]| > BYTE_ARRAY_MAX_LEN {
        return false;
      }
      MarshalBlob(data[i], w);
      WriteStep(WriteBlob, data, i, start);
      assert data[..i + 1] == data[..i] + [data[i]];
      i := i + 1;
    }
    assert data[..i] == data;
    Joined(old(w.out), Header(ARRAY, |data|), WriteAll(WriteBlob, data));
    ok := true;
  }

  method MarshalReqCBOR(t: NetRpcReq, w: CborWriter) returns (ok: bool)
    modifies w
    ensures ok <==> MarshalReq(t).Some?
    ensures ok ==> w.out == old(w.out) + MarshalReq(t).value
  {
    MarshalFront(4, t.ty, t.id, w);
    ok := MarshalCids(t.cids, w);
    if ok {
      ok := MarshalBlobs(t.data, w);
      if ok {
        var f, cs, ds := Front(4, t.ty, t.id), CidList(t.cids), BlobList(t.data);
        Joined(old(w.out) + f, cs, ds);
        Joined(old(w.out), f, cs + ds);
      }
    }
  }

  method MarshalFront(fields: nat, ty: Byte, id: Uint64, w: CborWriter)
    requires fields < U64
    modifies w
    ensures w.out == old(w.out) + Front(fields, ty, id)
  {
    w.WriteMajorTypeHeader(ARRAY, fields);
    w.WriteMajorTypeHeader(UNSIGNED, ty);
    w.WriteMajorTypeHeader(UNSIGNED, id);
  }

  method UnmarshalCids(r: CborReader) returns (cids: Option<seq<Cid>>)
    modifies r
    ensures cids.Some? <==> ReadCids(old(r.input)).Got?
    ensures cids.Some? ==> ReadCids(old(r.input)) == Got(cids.value, r.input)
  {
    var head := r.ReadHeader();
    if head.None? || head.value.arg > MAX_LENGTH || head.value.maj != ARRAY {
      return None;
    }
    cids := UnmarshalItems(ReadCid, UNDEF, r, head.value.arg);
  }

  method UnmarshalBlobs(r: CborReader) returns (data: Option<seq<Bytes>>)
    modifies r
    ensures data.Some? <==> ReadBlobs(old(r.input)).Got?
    ensures data.Some? ==> ReadBlobs(old(r.input)) == Got(data.value, r.input)
  {
    var head := r.ReadHeader();
    if head.None? || head.value.arg > MAX_LENGTH || head.value.maj != ARRAY {
      return None;
    }
    data := UnmarshalItems(ReadBlob, [], r, head.value.arg);
  }

  method UnmarshalFront(fields: nat, r: CborReader) returns (f: Option<(Byte, Uint64)>)
    modifies r
    ensures f.Some? <==> ReadFront(fields, old(r.input)).Got?
    ensures f.Some? ==> ReadFront(fields, old(r.input)) == Got(f.value, r.input)
  {
    var head := r.ReadHeader();
    if head.None? || head.value.maj != ARRAY || head.value.arg > U64 || head.value.arg != fields {
      return None;
    }
    var ty := r.ReadHeader();
    if ty.None? || ty.value.maj != UNSIGNED || ty.value.arg > 255 {
      return None;
    }
    var id := r.ReadHeader();
    if id.None? || id.value.maj != UNSIGNED || id.value.arg >= U64 {
      return None;
    }
    f := Some((ty.value.arg, id.value.arg));
  }

  method UnmarshalReqCBOR(r: CborReader) returns (t: Option<NetRpcReq>)
    modifies r
    ensures t.Some? <==> UnmarshalReq(old(r.input)).Got?
    ensures t.Some? ==> UnmarshalReq(old(r.input)) == Got(t.value, r.input)
  {
    var front := UnmarshalFront(4, r);
    if front.None? {
      return None;
    }
    var cids := UnmarshalCids(r);
    if cids.None? {
      return None;
    }
    var data := UnmarshalBlobs(r);
    if data.None? {
      return None;
    }
    t := Some(NetRpcReq(front.value.0, front.value.1, cids.value, data.value));
  }

  method MarshalRespCBOR(t: NetRpcResp, w: CborWriter) returns (ok: bool)
    modifies w
    ensures ok <==> MarshalResp(t).Some?
    ensures ok ==> w.out == old(w.out) + MarshalResp(t).value
  {
    MarshalFront(3, t.ty, t.id, w);
    ok := |t.data| <= BYTE_ARRAY_MAX_LEN;
    if ok {
      MarshalBlob(t.data, w);
      Joined(old(w.out), Front(3, t.ty, t.id), WriteBlob(t.data));
    }
  }

  method UnmarshalRespCBOR(r: CborReader) returns (t: Option<NetRpcResp>)
    modifies r
    ensures t.Some? <==> UnmarshalResp(old(r.input)).Got?
    ensures t.Some? ==> UnmarshalResp(old(r.input)) == Got(t.value, r.input)
  {
    var front := UnmarshalFront(3, r);
    if front.None? {
      return None;
    }
    var data := r.Advance(ReadBlob(r.input));
    if data.None? {
      return None;
    }
    t := Some(NetRpcResp(front.value.0, front.value.1, data.value));
  }

  method MarshalErrCBOR(t: NetRpcErr, w: CborWriter) returns (ok: bool)
    modifies w
    ensures ok <==> MarshalErr(t).Some?
    ensures ok ==> w.out == old(w.out) + MarshalErr(t).value
  {
    w.WriteMajorTypeHeader(ARRAY, 3);
    w.WriteMajorTypeHeader(UNSIGNED, t.ty);
    if |t.msg| > MAX_LENGTH {
      return false;
    }
    w.WriteMajorTypeHeader(TEXT_STRING, |t.msg|);
    w.Write(t.msg);
    if t.cid.None? {
      w.Write([NULL]);
    } else if t.cid.value == UNDEF {
      return false;
    } else {
      w.Write(WriteCid(t.cid.value));
    }
    ok := true;
    ErrJoined(old(w.out), Header(ARRAY, 3), Header(UNSIGNED, t.ty), Header(TEXT_STRING, |t.msg|), t.msg,
              WriteOptionalCid(t.cid));
  }

  lemma ErrJoined(out: Bytes, h: Bytes, a: Bytes, n: Bytes, s: Bytes, c: Bytes)
    ensures out + h + a + n + s + c == out + (h + (a + ((n + s) + c)))
  {
  }

  method UnmarshalErrCBOR(r: CborReader) returns (t: Option<NetRpcErr>)
    modifies r
    ensures t.Some? <==> UnmarshalErr(old(r.input)).Got?
    ensures t.Some? ==> UnmarshalErr(old(r.input)) == Got(t.value, r.input)
  {
    var head := r.ReadHeader();
    if head.None? || head.value.maj != ARRAY || head.value.arg != 3 {
      return None;
    }
    var ty := r.ReadHeader();
    if ty.None? || ty.value.maj != UNSIGNED || ty.value.arg > 255 {
      return None;
    }
    var msg := r.Advance(ReadString(TEXT_STRING, MAX_LENGTH, r.input));
    if msg.None? {
      return None;
    }
    var c := UnmarshalOptionalCid(r);
    if c.None? {
      return None;
    }
    t := Some(NetRpcErr(ty.value.arg, msg.value, c.value));
  }

  /** Reads a byte, and unreads it when it is not null. */
  method UnmarshalOptionalCid(r: CborReader) returns (c: Option<Option<Cid>>)
    modifies r
    ensures c.Some? <==> ReadOptionalCid(old(r.input)).Got?
    ensures c.Some? ==> ReadOptionalCid(old(r.input)) == Got(c.value, r.input)
  {
    if r.input == [] {
      return None;
    }
    var b := r.input[0];
    r.input := r.input[1..];
    if b == NULL {
      return Some(None);
    }
    r.input := [b] + r.input;
    assert r.input == old(r.input);
    var x := r.Advance(ReadCid(r.input));
    c := if x.None? then None else Some(x);
  }

  /** Marshalling into a fresh buffer, as every caller does. */
  method EncodeReq(t: NetRpcReq) returns (msg: Option<Bytes>)
    ensures msg == MarshalReq(t)
  {
    var w := new CborWriter();
    var ok := MarshalReqCBOR(t, w);
    if !ok {
      return None;
    }
    assert [] + MarshalReq(t).value == MarshalReq(t).value;
    msg := Some(w.out);
  }

  method EncodeResp(t: NetRpcResp) returns (msg: Option<Bytes>)
    ensures msg == MarshalResp(t)
  {
    var w := new CborWriter();
    var ok := MarshalRespCBOR(t, w);
    if !ok {
      return None;
    }
    assert [] + MarshalResp(t).value == MarshalResp(t).value;
    msg := Some(w.out);
  }

  /** What is in the buffer when marshalling fails is whatever was written before. */
  method EncodeErr(t: NetRpcErr) returns (ok: bool, data: Bytes)
    ensures ok <==> MarshalErr(t).Some?
    ensures ok ==> MarshalErr(t) == Some(data)
  {
    var w := new CborWriter();
    ok := MarshalErrCBOR(t, w);
    data := w.out;
    if ok {
      assert [] + MarshalErr(t).value == MarshalErr(t).value;
    }
  }
}
