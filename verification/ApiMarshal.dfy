/** The map-form marshallers and unmarshallers as the source writes them: a loop over the entries that assigns
    fields by name. */
module ApiMarshal {
  import opened Outcomes
  import opened Cbor
  import opened CborStreams
  import opened ApiCodec
  import opened ApiRecords

  ghost predicate Entry<T>(read: (T, Bytes) -> Parsed<T>, t: T, bs: Bytes, p: Parsed<T>) {
    read(t, bs) == p
  }

  method MarshalInt(e: Int64, w: CborWriter)
    modifies w
    ensures w.out == old(w.out) + WriteInt(e)
  {
    if e >= 0 {
      w.WriteMajorTypeHeader(UNSIGNED, ToUint64(e));
    } else {
      w.WriteMajorTypeHeader(NEGATIVE, ToUint64(Wrap64(Wrap64(0 - e) - 1)));
    }
  }

  method MarshalName(name: Bytes, w: CborWriter)
    requires |name| <= MAX_LENGTH
    modifies w
    ensures w.out == old(w.out) + WriteName(name)
  {
    w.WriteMajorTypeHeader(TEXT_STRING, |name|);
    w.Write(name);
    Joined(old(w.out), Header(TEXT_STRING, |name|), name);
  }

  lemma WriteThree<F>(write: F -> Bytes, a: F, b: F, c: F)
    ensures WriteMap(write, [a, b, c]) == Header(MAP, 3) + (write(a) + (write(b) + write(c)))
  {
    assert [a, b, c][1..] == [b, c] && [b, c][1..] == [c];
    assert WriteAll(write, [c]) == write(c);
    assert WriteAll(write, [b, c]) == write(b) + write(c);
  }

  method MarshalTicketCBOR(t: SealTicket, w: CborWriter) returns (ok: bool)
    modifies w
    ensures ok <==> MarshalSealTicket(t).Some?
    ensures ok ==> w.out == old(w.out) + MarshalSealTicket(t).value
  {
    var f, g := Epoch(t.epoch), Value(t.value);
    w.WriteMajorTypeHeader(MAP, 2);
    MarshalName(EPOCH(), w);
    MarshalInt(t.epoch, w);
    Joined(old(w.out) + Header(MAP, 2), WriteName(EPOCH()), WriteInt(t.epoch));
    MarshalName(VALUE(), w);
    if |t.value| > BYTE_ARRAY_MAX_LEN {
      return false;
    }
    w.Write(WriteString(BYTE_STRING, t.value));
    ok := true;
    var before := old(w.out) + Header(MAP, 2) + WriteTicketField(f);
    Joined(before, WriteName(VALUE()), WriteString(BYTE_STRING, t.value));
    Joined(old(w.out) + Header(MAP, 2), WriteTicketField(f), WriteTicketField(g));
    Joined(old(w.out), Header(MAP, 2), WriteTicketField(f) + WriteTicketField(g));
    WriteTwo(WriteTicketField, f, g);
  }

  method MarshalScheduleCBOR(t: DealSchedule, w: CborWriter)
    modifies w
    ensures w.out == old(w.out) + MarshalDealSchedule(t)
  {
    var f, g := EndEpoch(t.endEpoch), StartEpoch(t.startEpoch);
    w.WriteMajorTypeHeader(MAP, 2);
    MarshalName(END_EPOCH(), w);
    MarshalInt(t.endEpoch, w);
    Joined(old(w.out) + Header(MAP, 2), WriteName(END_EPOCH()), WriteInt(t.endEpoch));
    MarshalName(START_EPOCH(), w);
    MarshalInt(t.startEpoch, w);
    var before := old(w.out) + Header(MAP, 2) + WriteScheduleField(f);
    Joined(before, WriteName(START_EPOCH()), WriteInt(t.startEpoch));
    Joined(old(w.out) + Header(MAP, 2), WriteScheduleField(f), WriteScheduleField(g));
    Joined(old(w.out), Header(MAP, 2), WriteScheduleField(f) + WriteScheduleField(g));
    WriteTwo(WriteScheduleField, f, g);
  }

  /** The loop over the entries of a map; `read` takes one entry and assigns the field it names. The flat records
      share it. */
  method UnmarshalEntries<T>(read: (T, Bytes) -> Parsed<T>, zero: T, r: CborReader, n: nat) returns (t: Option<T>)
    modifies r
    ensures t.Some? <==> ReadFields(read, zero, old(r.input), n).Got?
    ensures t.Some? ==> ReadFields(read, zero, old(r.input), n) == Got(t.value, r.input)
  {
    var u := zero;
    var i := 0;
    while i < n
      invariant i <= n
      invariant ReadFields(read, zero, old(r.input), n) == ReadFields(read, u, r.input, n - i)
    {
      ReadFieldsStep(read, u, r.input, n - i);
      var next := r.Advance(read(u, r.input));
      if next.None? {
        return None;
      }
      u := next.value;
      i := i + 1;
    }
    t := Some(u);
  }

  method UnmarshalTicketCBOR(skip: Bytes -> Bytes, r: CborReader) returns (t: Option<SealTicket>)
    modifies r
    ensures t.Some? <==> UnmarshalSealTicket(skip, old(r.input)).Got?
    ensures t.Some? ==> UnmarshalSealTicket(skip, old(r.input)) == Got(t.value, r.input)
  {
    var n := r.Advance(ReadArgument(MAP, MAX_LENGTH, r.input));
    if n.None? {
      return None;
    }
    t := UnmarshalEntries(TicketReader(skip), ZERO_TICKET, r, n.value);
  }

  method UnmarshalScheduleCBOR(skip: Bytes -> Bytes, r: CborReader) returns (t: Option<DealSchedule>)
    modifies r
    ensures t.Some? <==> UnmarshalDealSchedule(skip, old(r.input)).Got?
    ensures t.Some? ==> UnmarshalDealSchedule(skip, old(r.input)) == Got(t.value, r.input)
  {
    var n := r.Advance(ReadArgument(MAP, MAX_LENGTH, r.input));
    if n.None? {
      return None;
    }
    t := UnmarshalEntries(ScheduleReader(skip), ZERO_SCHEDULE, r, n.value);
  }

  method MarshalRefCBOR(t: SealedRef, w: CborWriter)
    modifies w
    ensures w.out == old(w.out) + MarshalSealedRef(t)
  {
    w.WriteMajorTypeHeader(MAP, 3);
    MarshalRefField(Size(t.size), w);
    MarshalRefField(Offset(t.offset), w);
    MarshalRefField(SectorID(t.sectorID), w);
    var a, b, c := WriteRefField(Size(t.size)), WriteRefField(Offset(t.offset)), WriteRefField(SectorID(t.sectorID));
    FourJoined(old(w.out), Header(MAP, 3), a, b, c);
    WriteThree(WriteRefField, Size(t.size), Offset(t.offset), SectorID(t.sectorID));
  }

  lemma FourJoined(out: Bytes, h: Bytes, a: Bytes, b: Bytes, c: Bytes)
    ensures out + h + a + b + c == out + (h + (a + (b + c)))
  {
  }

  method MarshalRefField(f: RefField, w: CborWriter)
    modifies w
    ensures w.out == old(w.out) + WriteRefField(f)
  {
    MarshalName(RefName(f), w);
    w.WriteMajorTypeHeader(UNSIGNED, f.v);
    Joined(old(w.out), WriteName(RefName(f)), Header(UNSIGNED, f.v));
  }

  method UnmarshalRefCBOR(skip: Bytes -> Bytes, r: CborReader) returns (t: Option<SealedRef>)
    modifies r
    ensures t.Some? <==> UnmarshalSealedRef(skip, old(r.input)).Got?
    ensures t.Some? ==> UnmarshalSealedRef(skip, old(r.input)) == Got(t.value, r.input)
  {
    var n := r.Advance(ReadArgument(MAP, MAX_LENGTH, r.input));
    if n.None? {
      return None;
    }
    t := UnmarshalEntries(RefReader(skip), ZERO_REF, r, n.value);
  }

  method MarshalRefsCBOR(t: SealedRefs, w: CborWriter) returns (ok: bool)
    modifies w
    ensures ok <==> MarshalSealedRefs(t).Some?
    ensures ok ==> w.out == old(w.out) + MarshalSealedRefs(t).value
  {
    w.WriteMajorTypeHeader(MAP, 1);
    MarshalName(REFS(), w);
    if |t.refs| > MAX_LENGTH {
      return false;
    }
    w.WriteMajorTypeHeader(ARRAY, |t.refs|);
    ghost var start := w.out;
    var i := 0;
    while i < |t.refs|
      invariant i <= |t.refs|
      invariant w.out == start + WriteAll(MarshalSealedRef, t.refs[..i])
    {
      MarshalRefCBOR(t.refs[i], w);
      WriteStep(MarshalSealedRef, t.refs, i, start);
      i := i + 1;
    }
    assert t.refs[..i] == t.refs;
    ok := true;
    FourJoined(old(w.out), Header(MAP, 1), WriteName(REFS()), Header(ARRAY, |t.refs|),
               WriteAll(MarshalSealedRef, t.refs));
    assert WriteAll(WriteRefsField, [t.refs]) == WriteRefsField(t.refs);
  }

  method UnmarshalRefsField(skip: Bytes -> Bytes, r: CborReader, t: SealedRefs) returns (u: Option<SealedRefs>)
    modifies r
    ensures u.Some? <==> ReadRefsField(skip, t, old(r.input)).Got?
    ensures u.Some? ==> ReadRefsField(skip, t, old(r.input)) == Got(u.value, r.input)
  {
    var name := r.Advance(ReadName(r.input));
    if name.None? {
      return None;
    }
    if name.value != REFS() {
      r.input := skip(r.input);
      return Some(t);
    }
    var n := r.Advance(ReadArgument(ARRAY, MAX_LENGTH, r.input));
    if n.None? {
      return None;
    }
    var refs := UnmarshalItems(RefItem(skip), ZERO_REF, r, n.value);
    if refs.None? {
      return None;
    }
    u := Some(PutRefs(t, refs.value));
  }

  /** The loop over the entries. `read` is what one entry does, known only where it is looked at. */
  method UnmarshalRefsEntries(skip: Bytes -> Bytes, ghost read: (SealedRefs, Bytes) -> Parsed<SealedRefs>,
      r: CborReader, n: nat)
    returns (t: Option<SealedRefs>)
    requires forall t, bs {:trigger Entry(read, t, bs, ReadRefsField(skip, t, bs))} ::
               Entry(read, t, bs, ReadRefsField(skip, t, bs))
    modifies r
    ensures t.Some? <==> ReadFields(read, ZERO_REFS, old(r.input), n).Got?
    ensures t.Some? ==> ReadFields(read, ZERO_REFS, old(r.input), n) == Got(t.value, r.input)
  {
    var u := ZERO_REFS;
    var i := 0;
    while i < n
      invariant i <= n
      invariant ReadFields(read, ZERO_REFS, old(r.input), n) == ReadFields(read, u, r.input, n - i)
    {
      assert Entry(read, u, r.input, ReadRefsField(skip, u, r.input));
      ReadFieldsStep(read, u, r.input, n - i);
      var next := UnmarshalRefsField(skip, r, u);
      if next.None? {
        return None;
      }
      u := next.value;
      i := i + 1;
    }
    t := Some(u);
  }

  method UnmarshalRefsCBOR(skip: Bytes -> Bytes, r: CborReader) returns (t: Option<SealedRefs>)
    modifies r
    ensures t.Some? <==> UnmarshalSealedRefs(skip, old(r.input)).Got?
    ensures t.Some? ==> UnmarshalSealedRefs(skip, old(r.input)) == Got(t.value, r.input)
  {
    var n := r.Advance(ReadArgument(MAP, MAX_LENGTH, r.input));
    if n.None? {
      return None;
    }
    t := UnmarshalRefsEntries(skip, RefsReader(skip), r, n.value);
  }
}
