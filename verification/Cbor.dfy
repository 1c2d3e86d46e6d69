/** CBOR data items as RFC 8949 lays them out (section 3 for heads and major types, section 3.3 for null and
    the booleans), with the limits of the code generator's run-time library.
    A head is accepted only in its shortest form (preferred serialization, section 4.1). */
module Cbor {

  type Byte = x: int | 0 <= x < 256
  type Bytes = seq<Byte>
  type Uint64 = n: nat | n < U64

  const U64: nat := 0x1_0000_0000_0000_0000
  const MAX_LENGTH: nat := 8192
  const BYTE_ARRAY_MAX_LEN: nat := 2097152

  const UNSIGNED: nat := 0
  const NEGATIVE: nat := 1
  const BYTE_STRING: nat := 2
  const TEXT_STRING: nat := 3
  const ARRAY: nat := 4
  const MAP: nat := 5
  const TAG: nat := 6

  const NULL: Byte := 0xf6
  const FALSE: Byte := 0xf4
  const TRUE: Byte := 0xf5

  /** What a decoder makes of its input: a value and the input left over, or a failure. */
  datatype Parsed<+T> = Got(value: T, rest: Bytes) | Fail {
    predicate IsFailure() { Fail? }

    function PropagateFailure<U>(): Parsed<U>
      requires Fail?
    {
      Fail
    }

    function Extract(): (T, Bytes)
      requires Got?
    {
      (value, rest)
    }
  }

  function BigEndian(v: nat, n: nat): (r: Bytes)
    ensures |r| == n
  {
    if n == 0 then [] else BigEndian(v / 256, n - 1) + [v % 256]
  }

  function FromBigEndian(bs: Bytes): nat {
    if bs == [] then 0 else FromBigEndian(bs[..|bs| - 1]) * 256 + bs[|bs| - 1]
  }

  function Range(n: nat): nat {
    if n == 0 then 1 else Range(n - 1) * 256
  }

  lemma {:induction false} BigEndianRoundTrip(v: nat, n: nat)
    requires v < Range(n)
    ensures FromBigEndian(BigEndian(v, n)) == v
  {
    if n > 0 {
      BigEndianRoundTrip(v / 256, n - 1);
      var r := BigEndian(v, n);
      assert r[..|r| - 1] == BigEndian(v / 256, n - 1);
    }
  }

  lemma {:induction false} BigEndianInverse(bs: Bytes)
    ensures FromBigEndian(bs) < Range(|bs|)
    ensures BigEndian(FromBigEndian(bs), |bs|) == bs
  {
    if bs != [] {
      var front := bs[..|bs| - 1];
      BigEndianInverse(front);
      assert FromBigEndian(bs) / 256 == FromBigEndian(front);
      assert bs == front + [bs[|bs| - 1]];
    }
  }

  /** How many bytes the argument takes for a given low part of the initial byte. */
  function ArgumentLength(low: nat): nat {
    if low < 24 then 0 else if low == 24 then 1 else if low == 25 then 2 else if low == 26 then 4 else 8
  }

  /** The shortest form for an argument. */
  function LowFor(v: nat): nat {
    if v < 24 then v else if v < 0x100 then 24 else if v < 0x1_0000 then 25 else if v < 0x1_0000_0000 then 26 else 27
  }

  function Header(maj: nat, v: nat): (r: Bytes)
    requires maj < 8 && v < U64
    ensures 1 <= |r| <= 9
    ensures 32 * maj <= r[0] < 32 * maj + 28
  {
    [32 * maj + LowFor(v)] + BigEndian(v, ArgumentLength(LowFor(v)))
  }

  /** A length as a uint64; no slice is long enough for the second case. */
  function Len64(n: nat): Uint64 {
    if n < U64 then n else U64 - 1
  }

  datatype Head = Head(maj: nat, arg: nat)

  function ReadHeader(bs: Bytes): Parsed<Head> {
    if bs == [] then Fail
    else
      var maj, low := bs[0] / 32, bs[0] % 32;
      var n := ArgumentLength(low);
      if low > 27 || |bs| < 1 + n then Fail
      else
        var arg := if n == 0 then low else FromBigEndian(bs[1..1 + n]);
        if LowFor(arg) != low then Fail else Got(Head(maj, arg), bs[1 + n..])
  }

  lemma Ranges()
    ensures Range(1) == 0x100 && Range(2) == 0x1_0000 && Range(4) == 0x1_0000_0000 && Range(8) == U64
  {
    assert Range(3) == 0x100_0000;
    assert Range(5) == 0x100_0000_0000 && Range(6) == 0x1_0000_0000_0000 && Range(7) == 0x100_0000_0000_0000;
  }

  lemma ArgumentFits(v: nat)
    requires 24 <= v < U64
    ensures v < Range(ArgumentLength(LowFor(v)))
  {
    Ranges();
  }

  /** A head is read back with its argument, whatever follows it. */
  lemma HeaderRoundTrip(maj: nat, v: nat, rest: Bytes)
    requires maj < 8 && v < U64
    ensures ReadHeader(Header(maj, v) + rest) == Got(Head(maj, v), rest)
  {
    var low := LowFor(v);
    var n := ArgumentLength(low);
    var arg := BigEndian(v, n);
    Taken(32 * maj + low, arg, rest);
    assert (32 * maj + low) / 32 == maj && (32 * maj + low) % 32 == low;
    if n > 0 {
      ArgumentFits(v);
      BigEndianRoundTrip(v, n);
    }
  }

  lemma Taken(first: Byte, arg: Bytes, rest: Bytes)
    ensures var bs := ([first] + arg) + rest;
            bs[0] == first && bs[1..1 + |arg|] == arg && bs[1 + |arg|..] == rest
  {
  }

  /** Nothing but the head of a value is read as that head. */
  lemma HeaderInverse(bs: Bytes)
    requires ReadHeader(bs).Got?
    ensures var p := ReadHeader(bs); p.value.maj < 8 && p.value.arg < U64
    ensures var p := ReadHeader(bs); bs == Header(p.value.maj, p.value.arg) + p.rest
  {
    var n := ArgumentLength(bs[0] % 32);
    assert bs[0] == 32 * (bs[0] / 32) + bs[0] % 32;
    assert bs == ([bs[0]] + bs[1..1 + n]) + bs[1 + n..] by { ThreeParts(bs, 1 + n); }
    ArgumentInRange(bs[1..1 + n]);
    BigEndianInverse(bs[1..1 + n]);
  }

  lemma ThreeParts(bs: Bytes, n: nat)
    requires 1 <= n <= |bs|
    ensures bs == ([bs[0]] + bs[1..n]) + bs[n..]
  {
  }

  lemma ArgumentInRange(arg: Bytes)
    requires |arg| <= 8
    ensures FromBigEndian(arg) < U64
  {
    BigEndianInverse(arg);
    RangesGrow(|arg|, 8);
    Ranges();
  }

  lemma {:induction false} RangesGrow(m: nat, n: nat)
    requires m <= n
    ensures Range(m) <= Range(n)
  {
    if m < n {
      RangesGrow(m, n - 1);
    }
  }

  /** An argument of the given major type, no greater than a bound. */
  function ReadArgument(maj: nat, max: nat, bs: Bytes): (r: Parsed<nat>)
    ensures r.Got? ==> r.value <= max
  {
    var (head, rest) :- ReadHeader(bs);
    if head.maj != maj || head.arg > max then Fail else Got(head.arg, rest)
  }

  lemma ArgumentRoundTrip(maj: nat, max: nat, v: nat, rest: Bytes)
    requires maj < 8 && v < U64
    ensures ReadArgument(maj, max, Header(maj, v) + rest) == if v <= max then Got(v, rest) else Fail
  {
    HeaderRoundTrip(maj, v, rest);
  }

  lemma ArgumentInverse(maj: nat, max: nat, bs: Bytes)
    requires maj < 8 && ReadArgument(maj, max, bs).Got?
    ensures var p := ReadArgument(maj, max, bs); p.value < U64 && bs == Header(maj, p.value) + p.rest
  {
    HeaderInverse(bs);
  }

  /** A byte or text string: a head with the length, then the bytes. */
  function WriteString(maj: nat, s: Bytes): Bytes
    requires maj < 8
  {
    Header(maj, Len64(|s|)) + s
  }

  function ReadString(maj: nat, max: nat, bs: Bytes): (r: Parsed<Bytes>)
    ensures r.Got? ==> |r.value| <= max
  {
    var (n, rest) :- ReadArgument(maj, max, bs);
    if n > |rest| then Fail else Got(rest[..n], rest[n..])
  }

  lemma Joined(a: Bytes, b: Bytes, c: Bytes)
    ensures (a + b) + c == a + (b + c)
    ensures (b + c)[..|b|] == b && (b + c)[|b|..] == c
  {
  }

  /** A string is read back exactly when it is within the reader's limit. */
  lemma StringRoundTrip(maj: nat, max: nat, s: Bytes, rest: Bytes)
    requires maj < 8 && |s| < U64
    ensures ReadString(maj, max, WriteString(maj, s) + rest) == if |s| <= max then Got(s, rest) else Fail
  {
    var bs := WriteString(maj, s) + rest;
    assert bs == Header(maj, |s|) + (s + rest) by { Joined(Header(maj, |s|), s, rest); }
    assert ReadArgument(maj, max, bs) == if |s| <= max then Got(|s|, s + rest) else Fail by {
      ArgumentRoundTrip(maj, max, |s|, s + rest);
    }
    Joined([], s, rest);
  }

  lemma Split(bs: Bytes, head: Bytes, tail: Bytes, n: nat)
    requires bs == head + tail && n <= |tail|
    ensures bs == (head + tail[..n]) + tail[n..]
  {
  }

  lemma StringInverse(maj: nat, max: nat, bs: Bytes)
    requires maj < 8 && ReadString(maj, max, bs).Got?
    ensures var p := ReadString(maj, max, bs); |p.value| <= max && bs == WriteString(maj, p.value) + p.rest
  {
    ArgumentInverse(maj, max, bs);
    var n := ReadArgument(maj, max, bs);
    Split(bs, Header(maj, n.value), n.rest, n.value);
  }

  /** CIDs: a non-empty byte string under tag 42, preceded by the multibase byte for binary. The empty string
      stands for the undefined CID, which is not written. */
  type Cid = Bytes

  const UNDEF: Cid := []
  const CID_TAG: nat := 42
  const CID_MAX: nat := 512

  function WriteCid(c: Cid): (r: Bytes)
    ensures |r| > 0 && r[0] != NULL
  {
    Header(TAG, CID_TAG) + WriteString(BYTE_STRING, [0] + c)
  }

  function ReadCid(bs: Bytes): Parsed<Cid> {
    var (tag, tagged) :- ReadArgument(TAG, U64, bs);
    if tag != CID_TAG then Fail
    else
      var (s, rest) :- ReadString(BYTE_STRING, CID_MAX, tagged);
      if 2 <= |s| && s[0] == 0 then Got(s[1..], rest) else Fail
  }

  lemma CidRoundTrip(c: Cid, rest: Bytes)
    requires 0 < |c| < U64 - 1
    ensures ReadCid(WriteCid(c) + rest) == if |c| < CID_MAX then Got(c, rest) else Fail
  {
    var body := WriteString(BYTE_STRING, [0] + c);
    Joined(Header(TAG, CID_TAG), body, rest);
    ArgumentRoundTrip(TAG, U64, CID_TAG, body + rest);
    StringRoundTrip(BYTE_STRING, CID_MAX, [0] + c, rest);
    Joined([], [0], c);
  }

  lemma CidInverse(bs: Bytes)
    requires ReadCid(bs).Got?
    ensures var p := ReadCid(bs); 0 < |p.value| < CID_MAX && bs == WriteCid(p.value) + p.rest
  {
    var tag := ReadArgument(TAG, U64, bs);
    var s := ReadString(BYTE_STRING, CID_MAX, tag.rest);
    assert ReadCid(bs) == Got(s.value[1..], s.rest);
    ArgumentInverse(TAG, U64, bs);
    StringInverse(BYTE_STRING, CID_MAX, tag.rest);
    CidJoined(bs, tag.rest, s.value, s.rest);
  }

  lemma CidJoined(bs: Bytes, tagged: Bytes, s: Bytes, rest: Bytes)
    requires bs == Header(TAG, CID_TAG) + tagged && tagged == WriteString(BYTE_STRING, s) + rest
    requires |s| >= 1 && s[0] == 0
    ensures bs == WriteCid(s[1..]) + rest
  {
    assert s == [0] + s[1..];
    Joined(Header(TAG, CID_TAG), WriteString(BYTE_STRING, s), rest);
  }

  /** Items one after the other. */
  function WriteAll<T>(write: T -> Bytes, xs: seq<T>): Bytes {
    if xs == [] then [] else write(xs[0]) + WriteAll(write, xs[1..])
  }

  function ReadAll<T>(read: Bytes -> Parsed<T>, bs: Bytes, n: nat): Parsed<seq<T>>
    decreases n
  {
    if n == 0 then Got([], bs)
    else
      var (x, others) :- read(bs);
      var (xs, rest) :- ReadAll(read, others, n - 1);
      Got([x] + xs, rest)
  }

  /** If each item is read back, so is the whole list. */
  lemma {:induction false} AllRoundTrip<T>(write: T -> Bytes, read: Bytes -> Parsed<T>, xs: seq<T>, rest: Bytes)
    requires forall x, r | x in xs :: read(write(x) + r) == Got(x, r)
    ensures ReadAll(read, WriteAll(write, xs) + rest, |xs|) == Got(xs, rest)
  {
    if xs != [] {
      AllRoundTrip(write, read, xs[1..], rest);
      var tail := WriteAll(write, xs[1..]) + rest;
      Joined(write(xs[0]), WriteAll(write, xs[1..]), rest);
      assert xs[0] in xs && read(write(xs[0]) + tail) == Got(xs[0], tail);
      assert [xs[0]] + xs[1..] == xs;
    } else {
      assert WriteAll(write, xs) + rest == rest;
    }
  }

  /** If some item is refused, so is the whole list. */
  lemma {:induction false} AllRefused<T>(write: T -> Bytes, read: Bytes -> Parsed<T>, xs: seq<T>, bad: nat, rest: Bytes)
    requires bad < |xs|
    requires forall i, r | 0 <= i < bad :: read(write(xs[i]) + r) == Got(xs[i], r)
    requires forall r :: read(write(xs[bad]) + r) == Fail
    ensures ReadAll(read, WriteAll(write, xs) + rest, |xs|) == Fail
  {
    var tail := WriteAll(write, xs[1..]) + rest;
    assert WriteAll(write, xs) + rest == write(xs[0]) + tail;
    if bad > 0 {
      AllRefused(write, read, xs[1..], bad - 1, rest);
    }
  }

  /** If only what was written is ever read, the same holds of lists. */
  lemma {:induction false} AllInverse<T>(write: T -> Bytes, read: Bytes -> Parsed<T>, good: T -> bool,
                                         bs: Bytes, n: nat)
    requires forall b {:trigger read(b)} ::
               read(b).Got? ==> good(read(b).value) && b == write(read(b).value) + read(b).rest
    requires ReadAll(read, bs, n).Got?
    ensures var p := ReadAll(read, bs, n);
            |p.value| == n && (forall x | x in p.value :: good(x)) && bs == WriteAll(write, p.value) + p.rest
    decreases n
  {
    if n > 0 {
      var first := read(bs);
      AllInverse(write, read, good, first.rest, n - 1);
      var others := ReadAll(read, first.rest, n - 1);
      var all := ReadAll(read, bs, n).value;
      assert all == [first.value] + others.value && all[1..] == others.value;
      assert bs == write(all[0]) + (WriteAll(write, all[1..]) + others.rest);
    }
  }

  /** A list: a head with the number of items, then the items. */
  function WriteList<T>(write: T -> Bytes, xs: seq<T>): Bytes {
    Header(ARRAY, Len64(|xs|)) + WriteAll(write, xs)
  }

  function ReadList<T>(read: Bytes -> Parsed<T>, bs: Bytes): Parsed<seq<T>> {
    var (n, rest) :- ReadArgument(ARRAY, MAX_LENGTH, bs);
    ReadAll(read, rest, n)
  }

  lemma ListHead<T>(write: T -> Bytes, xs: seq<T>, rest: Bytes)
    requires |xs| <= MAX_LENGTH
    ensures ReadArgument(ARRAY, MAX_LENGTH, WriteList(write, xs) + rest) == Got(|xs|, WriteAll(write, xs) + rest)
  {
    Joined(Header(ARRAY, |xs|), WriteAll(write, xs), rest);
    ArgumentRoundTrip(ARRAY, MAX_LENGTH, |xs|, WriteAll(write, xs) + rest);
  }

  lemma ListRoundTrip<T>(write: T -> Bytes, read: Bytes -> Parsed<T>, xs: seq<T>, rest: Bytes)
    requires |xs| <= MAX_LENGTH
    requires forall x, r | x in xs :: read(write(x) + r) == Got(x, r)
    ensures ReadList(read, WriteList(write, xs) + rest) == Got(xs, rest)
  {
    ListHead(write, xs, rest);
    AllRoundTrip(write, read, xs, rest);
  }

  lemma ListInverse<T>(write: T -> Bytes, read: Bytes -> Parsed<T>, good: T -> bool, bs: Bytes)
    requires forall b {:trigger read(b)} ::
               read(b).Got? ==> good(read(b).value) && b == write(read(b).value) + read(b).rest
    requires ReadList(read, bs).Got?
    ensures var p := ReadList(read, bs);
            |p.value| <= MAX_LENGTH && (forall x | x in p.value :: good(x)) && bs == WriteList(write, p.value) + p.rest
  {
    ArgumentInverse(ARRAY, MAX_LENGTH, bs);
    var n := ReadArgument(ARRAY, MAX_LENGTH, bs);
    AllInverse(write, read, good, n.rest, n.value);
    var p := ReadList(read, bs);
    Joined(Header(ARRAY, n.value), WriteAll(write, p.value), p.rest);
  }
}
