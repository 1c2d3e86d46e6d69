/** The map-form wire format of the sealing and deal records (api/cbor_gen.go). What the library does with a field
    the record does not have is foreign code: `skip` gives the input left after it. */
module ApiCodec {
  import opened Outcomes
  import opened Cbor

  // -- 64-bit signed integers

  const I63: int := 0x8000_0000_0000_0000

  type Int64 = i: int | -I63 <= i < I63

  function Wrap64(x: int): Int64 {
    (x + I63) % U64 - I63
  }

  function ToUint64(x: Int64): Uint64 {
    if x < 0 then x + U64 else x
  }

  function WriteInt(e: Int64): Bytes {
    if e >= 0 then Header(UNSIGNED, ToUint64(e)) else Header(NEGATIVE, ToUint64(Wrap64(Wrap64(0 - e) - 1)))
  }

  function FromHead(head: Head): Option<Int64> {
    var x := Wrap64(head.arg);
    if (head.maj != UNSIGNED && head.maj != NEGATIVE) || x < 0 then None
    else Some(if head.maj == UNSIGNED then x else Wrap64(-1 - x))
  }

  function ReadInt(bs: Bytes): Parsed<Int64> {
    var (head, rest) :- ReadHeader(bs);
    match FromHead(head)
    case None => Fail
    case Some(x) => Got(x, rest)
  }

  lemma NegationWraps(e: Int64)
    requires e < 0
    ensures Wrap64(Wrap64(0 - e) - 1) == -1 - e
    ensures FromHead(Head(NEGATIVE, -1 - e)) == Some(e)
  {
    if e == -I63 {
      assert Wrap64(0 - e) == 0 - I63;
    } else {
      assert Wrap64(0 - e) == 0 - e;
    }
  }

  /** Every int64 is read back, the minimum too, although negating it overflows. */
  lemma IntRoundTrip(e: Int64, rest: Bytes)
    ensures ReadInt(WriteInt(e) + rest) == Got(e, rest)
  {
    if e >= 0 {
      HeaderRoundTrip(UNSIGNED, e, rest);
    } else {
      NegationWraps(e);
      HeaderRoundTrip(NEGATIVE, -1 - e, rest);
    }
  }

  // -- maps read field by field

  function ReadFields<T>(read: (T, Bytes) -> Parsed<T>, t: T, bs: Bytes, n: nat): Parsed<T>
    decreases n
  {
    if n == 0 then Got(t, bs)
    else
      var (next, rest) :- read(t, bs);
      ReadFields(read, next, rest, n - 1)
  }

  lemma ReadFieldsStep<T>(read: (T, Bytes) -> Parsed<T>, t: T, bs: Bytes, n: nat)
    requires n > 0
    ensures ReadFields(read, t, bs, n)
         == if read(t, bs).Fail? then Fail else ReadFields(read, read(t, bs).value, read(t, bs).rest, n - 1)
  {
  }

  function ReadMap<T>(read: (T, Bytes) -> Parsed<T>, zero: T, bs: Bytes): Parsed<T> {
    var (n, rest) :- ReadArgument(MAP, MAX_LENGTH, bs);
    ReadFields(read, zero, rest, n)
  }

  function WriteMap<F>(write: F -> Bytes, fs: seq<F>): Bytes
    requires |fs| < U64
  {
    Header(MAP, |fs|) + WriteAll(write, fs)
  }

  function PutAll<T, F>(put: (T, F) -> T, t: T, fs: seq<F>): T
    decreases |fs|
  {
    if fs == [] then t else PutAll(put, put(t, fs[0]), fs[1..])
  }

  ghost predicate FieldReads<T, F>(read: (T, Bytes) -> Parsed<T>, write: F -> Bytes, put: (T, F) -> T, t: T, f: F) {
    forall r :: read(t, write(f) + r) == Got(put(t, f), r)
  }

  /** Each field can be read into the record the earlier ones left. */
  ghost predicate Readable<T, F>(read: (T, Bytes) -> Parsed<T>, write: F -> Bytes, put: (T, F) -> T, t: T, fs: seq<F>)
    decreases |fs|
  {
    fs == [] || (FieldReads(read, write, put, t, fs[0]) && Readable(read, write, put, put(t, fs[0]), fs[1..]))
  }

  lemma {:induction false} FieldsRoundTrip<T, F>(read: (T, Bytes) -> Parsed<T>, write: F -> Bytes, put: (T, F) -> T,
                                                 t: T, fs: seq<F>, rest: Bytes)
    requires Readable(read, write, put, t, fs)
    ensures ReadFields(read, t, WriteAll(write, fs) + rest, |fs|) == Got(PutAll(put, t, fs), rest)
    decreases |fs|
  {
    if fs != [] {
      FieldsRoundTrip(read, write, put, put(t, fs[0]), fs[1..], rest);
      Joined(write(fs[0]), WriteAll(write, fs[1..]), rest);
    } else {
      assert WriteAll(write, fs) + rest == rest;
    }
  }

  lemma MapRoundTrip<T, F>(read: (T, Bytes) -> Parsed<T>, write: F -> Bytes, put: (T, F) -> T, zero: T,
                           fs: seq<F>, rest: Bytes)
    requires |fs| <= MAX_LENGTH && Readable(read, write, put, zero, fs)
    ensures ReadMap(read, zero, WriteMap(write, fs) + rest) == Got(PutAll(put, zero, fs), rest)
  {
    Joined(Header(MAP, |fs|), WriteAll(write, fs), rest);
    ArgumentRoundTrip(MAP, MAX_LENGTH, |fs|, WriteAll(write, fs) + rest);
    FieldsRoundTrip(read, write, put, zero, fs, rest);
  }

  lemma WriteTwo<F>(write: F -> Bytes, a: F, b: F)
    ensures WriteMap(write, [a, b]) == Header(MAP, 2) + (write(a) + write(b))
  {
    assert [a, b][1..] == [b];
    assert WriteAll(write, [b]) == write(b);
  }

  // -- field names

  function Ascii(s: string): (r: Bytes)
    requires forall i | 0 <= i < |s| :: s[i] as int < 128
    ensures |r| == |s| && forall i | 0 <= i < |s| :: r[i] == s[i] as int
  {
    seq(|s|, i requires 0 <= i < |s| => s[i] as int)
  }

  function WriteName(name: Bytes): Bytes {
    WriteString(TEXT_STRING, name)
  }

  function ReadName(bs: Bytes): (r: Parsed<Bytes>) {
    ReadString(TEXT_STRING, MAX_LENGTH, bs)
  }

  lemma NameRoundTrip(name: Bytes, value: Bytes, rest: Bytes)
    requires |name| <= MAX_LENGTH
    ensures ReadName((WriteName(name) + value) + rest) == Got(name, value + rest)
  {
    Joined(WriteName(name), value, rest);
    StringRoundTrip(TEXT_STRING, MAX_LENGTH, name, value + rest);
  }

  /** A rearrangement of a list without duplicates has the same elements and no duplicates. */
  lemma Rearranged<F>(fs: seq<F>, gs: seq<F>)
    requires multiset(fs) == multiset(gs)
    requires forall i, j | 0 <= i < j < |gs| :: gs[i] != gs[j]
    ensures |fs| == |gs|
    ensures forall i | 0 <= i < |fs| :: fs[i] in gs
    ensures forall i, j | 0 <= i < j < |fs| :: fs[i] != fs[j]
  {
    assert |multiset(fs)| == |fs| && |multiset(gs)| == |gs|;
    forall i | 0 <= i < |fs|
      ensures fs[i] in gs
    {
      assert fs[i] in multiset(fs);
    }
    forall i, j | 0 <= i < j < |fs|
      ensures fs[i] != fs[j]
    {
      if fs[i] == fs[j] {
        Twice(fs, i, j);
        Once(gs, fs[i]);
      }
    }
  }

  lemma Twice<F>(fs: seq<F>, i: nat, j: nat)
    requires i < j < |fs| && fs[i] == fs[j]
    ensures multiset(fs)[fs[i]] >= 2
  {
    assert fs == fs[..j] + [fs[j]] + fs[j + 1..];
    assert fs[i] in fs[..j];
  }

  lemma {:induction false} Once<F>(gs: seq<F>, f: F)
    requires forall i, j | 0 <= i < j < |gs| :: gs[i] != gs[j]
    ensures multiset(gs)[f] <= 1
  {
    if gs != [] {
      Once(gs[1..], f);
      assert gs == [gs[0]] + gs[1..];
      if f == gs[0] {
        assert f !in gs[1..];
      }
    }
  }
}
