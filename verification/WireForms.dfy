/** The bytes themselves: what representative messages and records look like on the wire, byte by byte. */
module WireForms {
  import opened Outcomes
  import opened Cbor
  import opened NetRpc
  import opened NetServer
  import opened ApiCodec
  import opened ApiRecords

  /** Lengths and numbers below 24 are part of the head; those below 256 follow it in one byte. */
  lemma HeadForms(maj: nat, v: nat)
    requires maj < 8 && v < 0x100
    ensures Header(maj, v) == if v < 24 then [32 * maj + v] else [32 * maj + 24, v]
  {
    if v >= 24 {
      assert BigEndian(v, 1) == BigEndian(v / 256, 0) + [v % 256] == [v];
    }
  }

  /** A CID of usual length: tag 42, a byte string, the multibase zero byte, the CID. */
  function CidForm(c: Cid): Bytes
    requires 23 <= |c| < 255
  {
    [0xd8, 0x2a, 0x58, |c| + 1, 0x00] + c
  }

  lemma CidOnWire(c: Cid)
    requires 23 <= |c| < 255
    ensures WriteCid(c) == CidForm(c)
  {
    HeadForms(TAG, 42);
    HeadForms(BYTE_STRING, |c| + 1);
  }

  /** The number each operation goes by. */
  function Code(op: Op): Byte {
    match op
    case Has(_) => 0
    case Get(_) => 1
    case GetSize(_) => 2
    case PutMany(_) => 3
    case DeleteMany(_) => 4
  }

  lemma OneItem<T>(write: T -> Bytes, x: T)
    ensures WriteList(write, [x]) == [0x81] + write(x) && WriteList(write, []) == [0x80]
  {
    HeadForms(ARRAY, 1);
    HeadForms(ARRAY, 0);
    assert [x][1..] == [];
    assert WriteAll(write, [x]) == write(x) + WriteAll(write, []) == write(x);
  }

  lemma FrontOnWire(fields: nat, ty: Byte, id: Uint64)
    requires fields < 24 && ty < 24 && id < 24
    ensures Front(fields, ty, id) == [0x80 + fields, ty, id]
  {
    HeadForms(ARRAY, fields);
    HeadForms(UNSIGNED, ty);
    HeadForms(UNSIGNED, id);
  }

  /** A request that names one CID: an array of four, the number of the operation, the id, one CID and no data. */
  lemma ReadOnWire(op: Op, id: Uint64)
    requires (op.Has? || op.Get? || op.GetSize?) && 23 <= |op.c| < 255 && id < 24
    ensures var msg := MarshalReq(ReqOf(op, id));
            msg.Some? && msg.value == [0x84, Code(op), id] + (([0x81] + CidForm(op.c)) + [0x80])
  {
    var t := ReqOf(op, id);
    FrontOnWire(4, t.ty, id);
    CidOnWire(op.c);
    OneItem(WriteCid, op.c);
    OneItem(WriteBlob, []);
  }

  lemma DeleteOnWire(c: Cid, id: Uint64)
    requires 23 <= |c| < 255 && id < 24
    ensures var msg := MarshalReq(ReqOf(DeleteMany([c]), id));
            msg.Some? && msg.value == [0x84, 4, id] + (([0x81] + CidForm(c)) + [0x80])
  {
    var t := ReqOf(DeleteMany([c]), id);
    FrontOnWire(4, t.ty, id);
    CidOnWire(c);
    OneItem(WriteCid, c);
    OneItem(WriteBlob, []);
  }

  lemma PutOnWire(c: Cid, data: Bytes, id: Uint64)
    requires 23 <= |c| < 255 && |data| < 24 && id < 24
    ensures var msg := MarshalReq(ReqOf(PutMany([Block(c, data)]), id));
            msg.Some? && msg.value == [0x84, 3, id] + (([0x81] + CidForm(c)) + ([0x81] + ([0x40 + |data|] + data)))
  {
    var t := ReqOf(PutMany([Block(c, data)]), id);
    assert t.cids == [c] && t.data == [data];
    FrontOnWire(4, t.ty, id);
    CidOnWire(c);
    OneItem(WriteCid, c);
    OneItem(WriteBlob, data);
    HeadForms(BYTE_STRING, |data|);
  }

  /** A reply: an array of three, 0 for success and 1 for an error, the id, the data. */
  lemma RespOnWire(id: Uint64, ty: Byte, data: Bytes)
    requires id < 24 && ty < 24 && |data| < 24
    ensures var msg := Respond(id, ty, data); msg.Some? && msg.value == [0x83, ty, id] + ([0x40 + |data|] + data)
  {
    FrontOnWire(3, ty, id);
    HeadForms(BYTE_STRING, |data|);
  }

  /** What Has is answered with: one byte, the CBOR true or false. */
  lemma HasOnWire(texts: Texts, c: Cid, id: Uint64, s: Store)
    requires id < 24
    ensures var msg := HandleRead(texts, ReqOf(Has(c), id), c, s).reply;
            msg.Some? && msg.value == [0x83, 0x00, id, 0x41, if c in s then 0xf5 else 0xf4]
  {
    RespOnWire(id, RESP_OK, [if c in s then TRUE else FALSE]);
  }

  /** An error without its last part: an array of three, its kind, its text. */
  lemma ErrFront(ty: Byte, text: Bytes)
    requires ty < 24 && |text| < 24
    ensures Header(ARRAY, 3) == [0x83] && Header(UNSIGNED, ty) == [ty]
    ensures WriteString(TEXT_STRING, text) == [0x60 + |text|] + text
  {
    HeadForms(ARRAY, 3);
    HeadForms(UNSIGNED, ty);
    HeadForms(TEXT_STRING, |text|);
  }

  /** What an error looks like inside its reply: its kind, its text, and the CID that was not found. */
  lemma NotFoundOnWire(text: Bytes, c: Cid)
    requires |text| < 24 && 23 <= |c| < 255
    ensures var msg := MarshalErr(NetRpcErr(ERR_NOT_FOUND, text, Some(c)));
            msg.Some? && msg.value == [0x83] + ([0x01] + (([0x60 + |text|] + text) + CidForm(c)))
  {
    ErrFront(ERR_NOT_FOUND, text);
    CidOnWire(c);
  }

  /** The same for any other error, with null in place of the CID. */
  lemma GenericOnWire(text: Bytes)
    requires |text| < 24
    ensures var msg := MarshalErr(NetRpcErr(ERR_GENERIC, text, None));
            msg.Some? && msg.value == [0x83] + ([0x00] + (([0x60 + |text|] + text) + [0xf6]))
  {
    ErrFront(ERR_GENERIC, text);
  }

  /** The reply that carries an error has type 1. */
  lemma RefusalOnWire(id: Uint64, text: Bytes, c: Cid)
    requires id < 24 && |text| < 20
    ensures var msg, err := RespondError(id, false, text, c), MarshalErr(NetRpcErr(ERR_GENERIC, text, None));
            && msg.Some? && err.Some? && |err.value| == |text| + 4
            && msg.value == [0x83, 0x01, id] + ([0x40 + |err.value|] + err.value)
  {
    GenericOnWire(text);
    RespOnWire(id, RESP_ERR, MarshalErr(NetRpcErr(ERR_GENERIC, text, None)).value);
  }

  /** Sizes are sent lowest byte first. */
  lemma SizeOnWire(a: Byte, b: Byte, c: Byte, d: Byte)
    ensures LittleEndian32(a + 256 * (b + 256 * (c + 256 * d))) == [a, b, c, d]
  {
    var n := a + 256 * (b + 256 * (c + 256 * d));
    assert n / 256 == b + 256 * (c + 256 * d) && n / 256 / 256 == c + 256 * d;
  }

  // -- records

  /** The field names, in ASCII. */
  lemma NameBytes()
    ensures EPOCH() == [0x45, 0x70, 0x6f, 0x63, 0x68] && VALUE() == [0x56, 0x61, 0x6c, 0x75, 0x65]
    ensures SIZE() == [0x53, 0x69, 0x7a, 0x65] && OFFSET() == [0x4f, 0x66, 0x66, 0x73, 0x65, 0x74]
    ensures SECTOR_ID() == [0x53, 0x65, 0x63, 0x74, 0x6f, 0x72, 0x49, 0x44] && REFS() == [0x52, 0x65, 0x66, 0x73]
    ensures END_EPOCH() == [0x45, 0x6e, 0x64, 0x45, 0x70, 0x6f, 0x63, 0x68]
    ensures START_EPOCH() == [0x53, 0x74, 0x61, 0x72, 0x74, 0x45, 0x70, 0x6f, 0x63, 0x68]
  {
  }

  /** An entry of a map: the length of the name, the name, the value. */
  function Entry(name: Bytes, value: Bytes): Bytes
    requires |name| < 24
  {
    [0x60 + |name|] + name + value
  }

  lemma NamedEntry(name: Bytes, value: Bytes)
    requires |name| < 24
    ensures WriteName(name) + value == Entry(name, value)
  {
    HeadForms(TEXT_STRING, |name|);
  }

  /** Small numbers of either sign. */
  lemma IntForm(e: Int64)
    requires -24 <= e < 24
    ensures WriteInt(e) == [if e >= 0 then e else 0x20 + (-1 - e)]
  {
    if e >= 0 {
      HeadForms(UNSIGNED, e);
    } else {
      NegationWraps(e);
      HeadForms(NEGATIVE, -1 - e);
    }
  }

  lemma TwoItems<T>(write: T -> Bytes, x: T, y: T)
    ensures WriteAll(write, [x, y]) == write(x) + write(y)
  {
    assert [x, y][1..] == [y] && [y][1..] == [];
    assert WriteAll(write, [y]) == write(y) + WriteAll(write, []) == write(y);
  }

  /** A ticket: a map of two, "Epoch" and a number, "Value" and a byte string. */
  lemma TicketOnWire(t: SealTicket)
    requires |t.value| < 24
    ensures var msg := MarshalSealTicket(t);
            && msg.Some?
            && msg.value == [0xa2] + (Entry(EPOCH(), WriteInt(t.epoch)) + Entry(VALUE(), [0x40 + |t.value|] + t.value))
  {
    HeadForms(MAP, 2);
    HeadForms(BYTE_STRING, |t.value|);
    NamedEntry(EPOCH(), WriteInt(t.epoch));
    NamedEntry(VALUE(), WriteString(BYTE_STRING, t.value));
    TwoItems(WriteTicketField, TicketFields(t)[0], TicketFields(t)[1]);
  }

  /** A schedule: a map of two, with both epochs under their names. */
  lemma ScheduleOnWire(t: DealSchedule)
    ensures MarshalDealSchedule(t)
         == [0xa2] + (Entry(END_EPOCH(), WriteInt(t.endEpoch)) + Entry(START_EPOCH(), WriteInt(t.startEpoch)))
  {
    HeadForms(MAP, 2);
    NamedEntry(END_EPOCH(), WriteInt(t.endEpoch));
    NamedEntry(START_EPOCH(), WriteInt(t.startEpoch));
    TwoItems(WriteScheduleField, ScheduleFields(t)[0], ScheduleFields(t)[1]);
  }

  lemma ThreeItems<T>(write: T -> Bytes, x: T, y: T, z: T)
    ensures WriteAll(write, [x, y, z]) == write(x) + (write(y) + write(z))
  {
    assert [x, y, z][1..] == [y, z];
    TwoItems(write, y, z);
  }

  /** A reference: a map of three numbers under their names. */
  lemma RefOnWire(t: SealedRef)
    ensures MarshalSealedRef(t)
         == [0xa3] + (Entry(SIZE(), Header(UNSIGNED, t.size))
                      + (Entry(OFFSET(), Header(UNSIGNED, t.offset))
                         + Entry(SECTOR_ID(), Header(UNSIGNED, t.sectorID))))
  {
    HeadForms(MAP, 3);
    NamedEntry(SIZE(), Header(UNSIGNED, t.size));
    NamedEntry(OFFSET(), Header(UNSIGNED, t.offset));
    NamedEntry(SECTOR_ID(), Header(UNSIGNED, t.sectorID));
    ThreeItems(WriteRefField, RefFields(t)[0], RefFields(t)[1], RefFields(t)[2]);
  }

  /** A list of references: a map of one, "Refs" and an array. */
  lemma RefsOnWire(t: SealedRefs)
    requires |t.refs| <= MAX_LENGTH
    ensures var msg := MarshalSealedRefs(t);
            msg.Some? && msg.value == [0xa1] + Entry(REFS(), WriteList(MarshalSealedRef, t.refs))
  {
    HeadForms(MAP, 1);
    NamedEntry(REFS(), WriteList(MarshalSealedRef, t.refs));
    assert [t.refs][1..] == [];
    assert WriteAll(WriteRefsField, [t.refs]) == WriteRefsField(t.refs) + WriteAll(WriteRefsField, []);
  }
}
