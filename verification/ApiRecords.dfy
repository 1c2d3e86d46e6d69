/** The map-form records of api/cbor_gen.go. Each has a list of fields in the order the encoder writes them; the
    decoder takes fields in any order, so that is what is proved. */
module ApiRecords {
  import opened Outcomes
  import opened Cbor
  import opened ApiCodec

  function ReadUint(bs: Bytes): Parsed<Uint64> {
    var (v, rest) :- ReadArgument(UNSIGNED, U64 - 1, bs);
    Got(v, rest)
  }

  // -- SealedRef

  datatype SealedRef = SealedRef(sectorID: Uint64, offset: Uint64, size: Uint64)

  datatype RefField = Size(v: Uint64) | Offset(v: Uint64) | SectorID(v: Uint64)

  const ZERO_REF := SealedRef(0, 0, 0)

  function SIZE(): Bytes { Ascii("Size") }
  function OFFSET(): Bytes { Ascii("Offset") }
  function SECTOR_ID(): Bytes { Ascii("SectorID") }

  function RefFields(t: SealedRef): seq<RefField> {
    [Size(t.size), Offset(t.offset), SectorID(t.sectorID)]
  }

  function RefName(f: RefField): Bytes {
    match f
    case Size(_) => SIZE()
    case Offset(_) => OFFSET()
    case SectorID(_) => SECTOR_ID()
  }

  function WriteRefField(f: RefField): Bytes {
    WriteName(RefName(f)) + Header(UNSIGNED, f.v)
  }

  function PutRef(t: SealedRef, f: RefField): SealedRef {
    match f
    case Size(v) => t.(size := v)
    case Offset(v) => t.(offset := v)
    case SectorID(v) => t.(sectorID := v)
  }

  function ReadRefField(skip: Bytes -> Bytes, t: SealedRef, bs: Bytes): Parsed<SealedRef> {
    var (name, rest) :- ReadName(bs);
    if name == SIZE() then
      var (v, left) :- ReadUint(rest);
      Got(t.(size := v), left)
    else if name == OFFSET() then
      var (v, left) :- ReadUint(rest);
      Got(t.(offset := v), left)
    else if name == SECTOR_ID() then
      var (v, left) :- ReadUint(rest);
      Got(t.(sectorID := v), left)
    else Got(t, skip(rest))
  }

  function RefReader(skip: Bytes -> Bytes): (SealedRef, Bytes) -> Parsed<SealedRef> {
    (t, bs) => ReadRefField(skip, t, bs)
  }

  function MarshalSealedRef(t: SealedRef): Bytes {
    WriteMap(WriteRefField, RefFields(t))
  }

  function UnmarshalSealedRef(skip: Bytes -> Bytes, bs: Bytes): Parsed<SealedRef> {
    ReadMap(RefReader(skip), ZERO_REF, bs)
  }

  lemma RefFieldReads(skip: Bytes -> Bytes, t: SealedRef, f: RefField)
    ensures FieldReads(RefReader(skip), WriteRefField, PutRef, t, f)
  {
    forall r: Bytes
      ensures ReadRefField(skip, t, WriteRefField(f) + r) == Got(PutRef(t, f), r)
    {
      NameRoundTrip(RefName(f), Header(UNSIGNED, f.v), r);
      ArgumentRoundTrip(UNSIGNED, U64 - 1, f.v, r);
    }
  }

  lemma {:induction false} RefFieldsReadable(skip: Bytes -> Bytes, t: SealedRef, fs: seq<RefField>)
    ensures Readable(RefReader(skip), WriteRefField, PutRef, t, fs)
    decreases |fs|
  {
    if fs != [] {
      RefFieldReads(skip, t, fs[0]);
      RefFieldsReadable(skip, PutRef(t, fs[0]), fs[1..]);
    }
  }

  lemma PutThree<T, F>(put: (T, F) -> T, t: T, a: F, b: F, c: F)
    ensures PutAll(put, t, [a, b, c]) == put(put(put(t, a), b), c)
  {
    assert [a, b, c][1..] == [b, c] && [b, c][1..] == [c];
    assert PutAll(put, put(put(t, a), b), [c]) == put(put(put(t, a), b), c);
  }

  lemma ThreePuts(t: SealedRef, fs: seq<RefField>)
    requires |fs| == 3 && fs[0] in RefFields(t) && fs[1] in RefFields(t) && fs[2] in RefFields(t)
    requires fs[0] != fs[1] && fs[1] != fs[2] && fs[0] != fs[2]
    ensures PutAll(PutRef, ZERO_REF, fs) == t
  {
    assert fs == [fs[0], fs[1], fs[2]];
    PutThree(PutRef, ZERO_REF, fs[0], fs[1], fs[2]);
  }

  lemma ThreeFields(t: SealedRef, fs: seq<RefField>)
    requires multiset(fs) == multiset(RefFields(t))
    ensures |fs| == 3 && fs[0] in RefFields(t) && fs[1] in RefFields(t) && fs[2] in RefFields(t)
    ensures fs[0] != fs[1] && fs[1] != fs[2] && fs[0] != fs[2]
  {
    Rearranged(fs, RefFields(t));
  }

  lemma RefFieldsGiveRef(t: SealedRef, fs: seq<RefField>)
    requires multiset(fs) == multiset(RefFields(t))
    ensures |fs| == 3 && PutAll(PutRef, ZERO_REF, fs) == t
  {
    ThreeFields(t, fs);
    ThreePuts(t, fs);
  }

  /** A reference is read back from its fields in any order; in the encoder's order this is the round trip. */
  lemma SealedRefAnyOrder(skip: Bytes -> Bytes, t: SealedRef, fs: seq<RefField>, rest: Bytes)
    requires multiset(fs) == multiset(RefFields(t))
    ensures |fs| == 3 && UnmarshalSealedRef(skip, WriteMap(WriteRefField, fs) + rest) == Got(t, rest)
  {
    RefFieldsGiveRef(t, fs);
    RefFieldsReadable(skip, ZERO_REF, fs);
    MapRoundTrip(RefReader(skip), WriteRefField, PutRef, ZERO_REF, fs, rest);
  }

  // -- SealedRefs

  datatype SealedRefs = SealedRefs(refs: seq<SealedRef>)

  const ZERO_REFS := SealedRefs([])

  function REFS(): Bytes { Ascii("Refs") }

  function WriteRefsField(refs: seq<SealedRef>): Bytes {
    WriteName(REFS()) + WriteList(MarshalSealedRef, refs)
  }

  function PutRefs(t: SealedRefs, refs: seq<SealedRef>): SealedRefs {
    if refs == [] then t else SealedRefs(refs)
  }

  function RefItem(skip: Bytes -> Bytes): Bytes -> Parsed<SealedRef> {
    bs => UnmarshalSealedRef(skip, bs)
  }

  function ReadRefsField(skip: Bytes -> Bytes, t: SealedRefs, bs: Bytes): Parsed<SealedRefs> {
    var (name, rest) :- ReadName(bs);
    if name == REFS() then
      var (refs, left) :- ReadList(RefItem(skip), rest);
      Got(PutRefs(t, refs), left)
    else Got(t, skip(rest))
  }

  function RefsReader(skip: Bytes -> Bytes): (SealedRefs, Bytes) -> Parsed<SealedRefs> {
    (t, bs) => ReadRefsField(skip, t, bs)
  }

  function MarshalSealedRefs(t: SealedRefs): Option<Bytes> {
    if |t.refs| > MAX_LENGTH then None else Some(WriteMap(WriteRefsField, [t.refs]))
  }

  function UnmarshalSealedRefs(skip: Bytes -> Bytes, bs: Bytes): Parsed<SealedRefs> {
    ReadMap(RefsReader(skip), ZERO_REFS, bs)
  }

  lemma RefListRoundTrip(skip: Bytes -> Bytes, refs: seq<SealedRef>, rest: Bytes)
    requires |refs| <= MAX_LENGTH
    ensures ReadList(RefItem(skip), WriteList(MarshalSealedRef, refs) + rest) == Got(refs, rest)
  {
    forall x, r: Bytes | x in refs
      ensures RefItem(skip)(MarshalSealedRef(x) + r) == Got(x, r)
    {
      SealedRefAnyOrder(skip, x, RefFields(x), r);
    }
    ListRoundTrip(MarshalSealedRef, RefItem(skip), refs, rest);
  }

  lemma RefsFieldReads(skip: Bytes -> Bytes, refs: seq<SealedRef>)
    requires |refs| <= MAX_LENGTH
    ensures FieldReads(RefsReader(skip), WriteRefsField, PutRefs, ZERO_REFS, refs)
  {
    forall r: Bytes
      ensures ReadRefsField(skip, ZERO_REFS, WriteRefsField(refs) + r) == Got(PutRefs(ZERO_REFS, refs), r)
    {
      var list := WriteList(MarshalSealedRef, refs);
      assert ReadName(WriteRefsField(refs) + r) == Got(REFS(), list + r) by { NameRoundTrip(REFS(), list, r); }
      assert ReadList(RefItem(skip), list + r) == Got(refs, r) by { RefListRoundTrip(skip, refs, r); }
    }
  }

  lemma SealedRefsRoundTrip(skip: Bytes -> Bytes, t: SealedRefs, rest: Bytes)
    requires MarshalSealedRefs(t).Some?
    ensures UnmarshalSealedRefs(skip, MarshalSealedRefs(t).value + rest) == Got(t, rest)
  {
    RefsFieldReads(skip, t.refs);
    assert [t.refs][1..] == [];
    assert PutAll(PutRefs, ZERO_REFS, [t.refs]) == t;
    MapRoundTrip(RefsReader(skip), WriteRefsField, PutRefs, ZERO_REFS, [t.refs], rest);
  }

  // -- SealTicket and SealSeed, which have the same fields and the same code

  datatype SealTicket = SealTicket(value: Bytes, epoch: Int64)

  datatype TicketField = Epoch(e: Int64) | Value(b: Bytes)

  const ZERO_TICKET := SealTicket([], 0)

  function EPOCH(): Bytes { Ascii("Epoch") }
  function VALUE(): Bytes { Ascii("Value") }

  function TicketFields(t: SealTicket): seq<TicketField> {
    [Epoch(t.epoch), Value(t.value)]
  }

  function WriteTicketField(f: TicketField): Bytes {
    match f
    case Epoch(e) => WriteName(EPOCH()) + WriteInt(e)
    case Value(b) => WriteName(VALUE()) + WriteString(BYTE_STRING, b)
  }

  function PutTicket(t: SealTicket, f: TicketField): SealTicket {
    match f
    case Epoch(e) => t.(epoch := e)
    case Value(b) => t.(value := b)
  }

  /** The slice is remade only for a positive length; otherwise the old slice, whatever its length, is filled again. */
  function ReadInto(slice: Bytes, bs: Bytes): Parsed<Bytes> {
    var (len, rest) :- ReadArgument(BYTE_STRING, BYTE_ARRAY_MAX_LEN, bs);
    var n := if len > 0 then len else |slice|;
    if n > |rest| then Fail else Got(rest[..n], rest[n..])
  }

  function ReadTicketField(skip: Bytes -> Bytes, t: SealTicket, bs: Bytes): Parsed<SealTicket> {
    var (name, rest) :- ReadName(bs);
    if name == EPOCH() then
      var (e, left) :- ReadInt(rest);
      Got(t.(epoch := e), left)
    else if name == VALUE() then
      var (b, left) :- ReadInto(t.value, rest);
      Got(t.(value := b), left)
    else Got(t, skip(rest))
  }

  function TicketReader(skip: Bytes -> Bytes): (SealTicket, Bytes) -> Parsed<SealTicket> {
    (t, bs) => ReadTicketField(skip, t, bs)
  }

  function MarshalSealTicket(t: SealTicket): Option<Bytes> {
    if |t.value| > BYTE_ARRAY_MAX_LEN then None else Some(WriteMap(WriteTicketField, TicketFields(t)))
  }

  function UnmarshalSealTicket(skip: Bytes -> Bytes, bs: Bytes): Parsed<SealTicket> {
    ReadMap(TicketReader(skip), ZERO_TICKET, bs)
  }

  lemma NamesDiffer()
    ensures EPOCH() != VALUE()
  {
    assert EPOCH()[0] != VALUE()[0];
  }

  /** A byte string is read into a slice as written exactly when it is not an empty one read over a longer one. */
  lemma ReadIntoExactly(slice: Bytes, b: Bytes, rest: Bytes)
    requires |b| <= BYTE_ARRAY_MAX_LEN
    ensures ReadInto(slice, WriteString(BYTE_STRING, b) + rest) == Got(b, rest) <==> b != [] || slice == []
  {
    var bs := WriteString(BYTE_STRING, b) + rest;
    assert bs == Header(BYTE_STRING, |b|) + (b + rest) by { Joined(Header(BYTE_STRING, |b|), b, rest); }
    assert ReadArgument(BYTE_STRING, BYTE_ARRAY_MAX_LEN, bs) == Got(|b|, b + rest) by {
      ArgumentRoundTrip(BYTE_STRING, BYTE_ARRAY_MAX_LEN, |b|, b + rest);
    }
    Joined([], b, rest);
  }

  lemma RereadEmpty(slice: Bytes, rest: Bytes)
    ensures ReadInto(slice, WriteString(BYTE_STRING, []) + rest)
         == if |slice| > |rest| then Fail else Got(rest[..|slice|], rest[|slice|..])
  {
    var bs := WriteString(BYTE_STRING, []) + rest;
    assert bs == Header(BYTE_STRING, 0) + rest;
    ArgumentRoundTrip(BYTE_STRING, BYTE_ARRAY_MAX_LEN, 0, rest);
  }

  lemma TicketFieldReads(skip: Bytes -> Bytes, t: SealTicket, f: TicketField)
    requires f.Value? ==> |f.b| <= BYTE_ARRAY_MAX_LEN && t.value == []
    ensures FieldReads(TicketReader(skip), WriteTicketField, PutTicket, t, f)
  {
    NamesDiffer();
    forall r: Bytes
      ensures ReadTicketField(skip, t, WriteTicketField(f) + r) == Got(PutTicket(t, f), r)
    {
      match f {
        case Epoch(e) =>
          NameRoundTrip(EPOCH(), WriteInt(e), r);
          IntRoundTrip(e, r);
        case Value(b) =>
          var w := WriteString(BYTE_STRING, b);
          NameRoundTrip(VALUE(), w, r);
          ReadIntoExactly([], b, r);
      }
    }
  }

  /** A ticket or seed is read back from its fields in either order. */
  lemma SealTicketAnyOrder(skip: Bytes -> Bytes, t: SealTicket, fs: seq<TicketField>, rest: Bytes)
    requires |t.value| <= BYTE_ARRAY_MAX_LEN && multiset(fs) == multiset(TicketFields(t))
    ensures |fs| == 2 && UnmarshalSealTicket(skip, WriteMap(WriteTicketField, fs) + rest) == Got(t, rest)
  {
    Rearranged(fs, TicketFields(t));
    var half := PutTicket(ZERO_TICKET, fs[0]);
    TicketFieldReads(skip, ZERO_TICKET, fs[0]);
    TicketFieldReads(skip, half, fs[1]);
    assert fs[1..] == [fs[1]] && fs[1..][1..] == [];
    assert PutAll(PutTicket, half, fs[1..]) == t;
    assert Readable(TicketReader(skip), WriteTicketField, PutTicket, half, fs[1..]);
    MapRoundTrip(TicketReader(skip), WriteTicketField, PutTicket, ZERO_TICKET, fs, rest);
  }

  lemma EmptyValueReads(skip: Bytes -> Bytes, t: SealTicket, rest: Bytes)
    ensures ReadTicketField(skip, t, WriteTicketField(Value([])) + rest)
         == if |t.value| > |rest| then Fail else Got(t.(value := rest[..|t.value|]), rest[|t.value|..])
  {
    NamesDiffer();
    var w := WriteString(BYTE_STRING, []);
    NameRoundTrip(VALUE(), w, rest);
    RereadEmpty(t.value, rest);
  }

  lemma ReadTwoFields<T>(read: (T, Bytes) -> Parsed<T>, t: T, bs: Bytes, u: T, rest: Bytes)
    requires read(t, bs) == Got(u, rest)
    ensures ReadFields(read, t, bs, 2) == read(u, rest)
  {
    assert ReadFields(read, u, rest, 1) == match read(u, rest) { case Fail => Fail case Got(v, r) => Got(v, r) };
  }

  /** A ticket whose Value occurs twice, the second time empty, is read with a value made of whatever follows it. */
  lemma EmptyValueTakesWhatFollows(skip: Bytes -> Bytes, b: Bytes, rest: Bytes)
    requires 0 < |b| <= BYTE_ARRAY_MAX_LEN
    ensures UnmarshalSealTicket(skip, WriteMap(WriteTicketField, [Value(b), Value([])]) + rest)
         == if |b| > |rest| then Fail else Got(SealTicket(rest[..|b|], 0), rest[|b|..])
  {
    var fs := [Value(b), Value([])];
    var first, second := WriteTicketField(fs[0]), WriteTicketField(fs[1]);
    var t := SealTicket(b, 0);
    WriteTwo(WriteTicketField, fs[0], fs[1]);
    Joined(Header(MAP, 2), first + second, rest);
    Joined(first, second, rest);
    ArgumentRoundTrip(MAP, MAX_LENGTH, 2, first + (second + rest));
    TicketFieldReads(skip, ZERO_TICKET, fs[0]);
    assert TicketReader(skip)(ZERO_TICKET, first + (second + rest)) == Got(t, second + rest);
    ReadTwoFields(TicketReader(skip), ZERO_TICKET, first + (second + rest), t, second + rest);
    EmptyValueReads(skip, t, rest);
  }

  // -- DealSchedule

  datatype DealSchedule = DealSchedule(startEpoch: Int64, endEpoch: Int64)

  datatype ScheduleField = EndEpoch(e: Int64) | StartEpoch(e: Int64)

  const ZERO_SCHEDULE := DealSchedule(0, 0)

  function END_EPOCH(): Bytes { Ascii("EndEpoch") }
  function START_EPOCH(): Bytes { Ascii("StartEpoch") }

  function ScheduleFields(t: DealSchedule): seq<ScheduleField> {
    [EndEpoch(t.endEpoch), StartEpoch(t.startEpoch)]
  }

  function ScheduleName(f: ScheduleField): Bytes {
    if f.EndEpoch? then END_EPOCH() else START_EPOCH()
  }

  function WriteScheduleField(f: ScheduleField): Bytes {
    WriteName(ScheduleName(f)) + WriteInt(f.e)
  }

  function PutSchedule(t: DealSchedule, f: ScheduleField): DealSchedule {
    match f
    case EndEpoch(e) => t.(endEpoch := e)
    case StartEpoch(e) => t.(startEpoch := e)
  }

  function ReadScheduleField(skip: Bytes -> Bytes, t: DealSchedule, bs: Bytes): Parsed<DealSchedule> {
    var (name, rest) :- ReadName(bs);
    if name == END_EPOCH() then
      var (e, left) :- ReadInt(rest);
      Got(t.(endEpoch := e), left)
    else if name == START_EPOCH() then
      var (e, left) :- ReadInt(rest);
      Got(t.(startEpoch := e), left)
    else Got(t, skip(rest))
  }

  function ScheduleReader(skip: Bytes -> Bytes): (DealSchedule, Bytes) -> Parsed<DealSchedule> {
    (t, bs) => ReadScheduleField(skip, t, bs)
  }

  function MarshalDealSchedule(t: DealSchedule): Bytes {
    WriteMap(WriteScheduleField, ScheduleFields(t))
  }

  function UnmarshalDealSchedule(skip: Bytes -> Bytes, bs: Bytes): Parsed<DealSchedule> {
    ReadMap(ScheduleReader(skip), ZERO_SCHEDULE, bs)
  }

  lemma ScheduleFieldReads(skip: Bytes -> Bytes, t: DealSchedule, f: ScheduleField)
    ensures FieldReads(ScheduleReader(skip), WriteScheduleField, PutSchedule, t, f)
  {
    forall r: Bytes
      ensures ReadScheduleField(skip, t, WriteScheduleField(f) + r) == Got(PutSchedule(t, f), r)
    {
      NameRoundTrip(ScheduleName(f), WriteInt(f.e), r);
      IntRoundTrip(f.e, r);
    }
  }

  lemma DealScheduleAnyOrder(skip: Bytes -> Bytes, t: DealSchedule, fs: seq<ScheduleField>, rest: Bytes)
    requires multiset(fs) == multiset(ScheduleFields(t))
    ensures |fs| == 2 && UnmarshalDealSchedule(skip, WriteMap(WriteScheduleField, fs) + rest) == Got(t, rest)
  {
    Rearranged(fs, ScheduleFields(t));
    var half := PutSchedule(ZERO_SCHEDULE, fs[0]);
    ScheduleFieldReads(skip, ZERO_SCHEDULE, fs[0]);
    ScheduleFieldReads(skip, half, fs[1]);
    assert fs[1..] == [fs[1]] && fs[1..][1..] == [];
    assert PutAll(PutSchedule, half, fs[1..]) == t;
    assert Readable(ScheduleReader(skip), WriteScheduleField, PutSchedule, half, fs[1..]);
    MapRoundTrip(ScheduleReader(skip), WriteScheduleField, PutSchedule, ZERO_SCHEDULE, fs, rest);
  }
}
