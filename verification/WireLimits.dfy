/** What the decoders of the map-form records refuse: every kind of head and every length, by the numbers. */
module WireLimits {
  import opened Outcomes
  import opened Cbor
  import opened ApiCodec
  import opened ApiRecords

  /** A record is a map of at most 8192 entries. */
  lemma MapLimits<T>(read: (T, Bytes) -> Parsed<T>, zero: T, maj: nat, n: nat, rest: Bytes)
    requires maj < 8 && n < U64
    ensures ReadMap(read, zero, Header(maj, n) + rest)
         == if maj == 5 && n <= 8192 then ReadFields(read, zero, rest, n) else Fail
  {
    HeaderRoundTrip(maj, n, rest);
  }

  /** A name is a text string of at most 8192 bytes that are all there. */
  lemma NameLimits(maj: nat, n: nat, rest: Bytes)
    requires maj < 8 && n < U64
    ensures ReadName(Header(maj, n) + rest)
         == if maj == 3 && n <= 8192 && n <= |rest| then Got(rest[..n], rest[n..]) else Fail
  {
    HeaderRoundTrip(maj, n, rest);
  }

  lemma WrapsHigh(n: nat)
    requires n < U64
    ensures Wrap64(n) == if n < I63 then n else n - U64
  {
    if n < I63 {
      assert (n + I63) % U64 == n + I63;
    } else {
      assert n + I63 == U64 + (n - I63);
      assert (n + I63) % U64 == n - I63;
    }
  }

  lemma WrapsNegative(x: Int64)
    requires x >= 0
    ensures Wrap64(-1 - x) == -1 - x
  {
    assert 0 <= -1 - x + I63 < U64;
  }

  lemma HeadOfInt(maj: nat, n: nat)
    requires n < U64
    ensures FromHead(Head(maj, n)) == if maj <= 1 && n < I63 then Some(if maj == 0 then n else -1 - n) else None
  {
    WrapsHigh(n);
    if n < I63 {
      WrapsNegative(n);
    }
  }

  /** A signed number is one of the two integer types with an argument below 2^63. */
  lemma IntLimits(maj: nat, n: nat, rest: Bytes)
    requires maj < 8 && n < U64
    ensures ReadInt(Header(maj, n) + rest)
         == if maj <= 1 && n < 0x8000_0000_0000_0000 then Got(if maj == 0 then n else -1 - n, rest) else Fail
  {
    HeaderRoundTrip(maj, n, rest);
    HeadOfInt(maj, n);
  }

  /** An unsigned number may be as large as its 64 bits allow. */
  lemma UintLimits(maj: nat, n: nat, rest: Bytes)
    requires maj < 8 && n < U64
    ensures ReadUint(Header(maj, n) + rest) == if maj == 0 then Got(n, rest) else Fail
  {
    HeaderRoundTrip(maj, n, rest);
  }

  /** A byte string has at most two mebibytes; as many bytes are read as it says, or as the slice has if it says 0. */
  lemma SliceLimits(slice: Bytes, maj: nat, n: nat, rest: Bytes)
    requires maj < 8 && n < U64
    ensures var k := if n > 0 then n else |slice|;
            ReadInto(slice, Header(maj, n) + rest)
            == if maj == 2 && n <= 2097152 && k <= |rest| then Got(rest[..k], rest[k..]) else Fail
  {
    HeaderRoundTrip(maj, n, rest);
  }

  /** A list is an array of at most 8192 items. */
  lemma ListLimits<T>(read: Bytes -> Parsed<T>, maj: nat, n: nat, rest: Bytes)
    requires maj < 8 && n < U64
    ensures ReadList(read, Header(maj, n) + rest) == if maj == 4 && n <= 8192 then ReadAll(read, rest, n) else Fail
  {
    HeaderRoundTrip(maj, n, rest);
  }

  /** A field the record does not have is skipped and leaves the record alone. */
  lemma UnknownSkipped(skip: Bytes -> Bytes, name: Bytes, rest: Bytes, t: SealTicket, d: DealSchedule, r: SealedRef,
                       rs: SealedRefs)
    requires |name| <= 8192
    ensures name !in [EPOCH(), VALUE()] ==> ReadTicketField(skip, t, WriteName(name) + rest) == Got(t, skip(rest))
    ensures name !in [END_EPOCH(), START_EPOCH()] ==>
              ReadScheduleField(skip, d, WriteName(name) + rest) == Got(d, skip(rest))
    ensures name !in [SIZE(), OFFSET(), SECTOR_ID()] ==>
              ReadRefField(skip, r, WriteName(name) + rest) == Got(r, skip(rest))
    ensures name != REFS() ==> ReadRefsField(skip, rs, WriteName(name) + rest) == Got(rs, skip(rest))
  {
    StringRoundTrip(TEXT_STRING, MAX_LENGTH, name, rest);
  }
}
