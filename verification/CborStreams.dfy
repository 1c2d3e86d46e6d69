/** The writer that marshallers append to, the reader that unmarshallers consume, and the loops over lists. */
module CborStreams {
  import opened Outcomes
  import opened Cbor

  class CborWriter {
    var out: Bytes

    constructor ()
      ensures out == []
    {
      out := [];
    }

    method Write(bs: Bytes)
      modifies this
      ensures out == old(out) + bs
    {
      out := out + bs;
    }

    method WriteMajorTypeHeader(maj: nat, v: nat)
      requires maj < 8 && v < U64
      modifies this
      ensures out == old(out) + Header(maj, v)
    {
      out := out + Header(maj, v);
    }
  }

  class CborReader {
    var input: Bytes

    constructor (bs: Bytes)
      ensures input == bs
    {
      input := bs;
    }

    /** Moves past what was parsed; what is left after a failure is of no interest to any caller. */
    method Advance<T>(p: Parsed<T>) returns (v: Option<T>)
      modifies this
      ensures v.Some? <==> p.Got?
      ensures p.Got? ==> v.value == p.value && input == p.rest
    {
      match p {
        case Fail => v := None;
        case Got(x, rest) => v := Some(x); input := rest;
      }
    }

    method ReadHeader() returns (h: Option<Head>)
      modifies this
      ensures h.Some? <==> Cbor.ReadHeader(old(input)).Got?
      ensures h.Some? ==> Cbor.ReadHeader(old(input)) == Got(h.value, input)
    {
      h := Advance(Cbor.ReadHeader(input));
    }
  }

  lemma {:induction false} WriteAllSnoc<T>(write: T -> Bytes, xs: seq<T>, i: nat)
    requires i < |xs|
    ensures WriteAll(write, xs[..i + 1]) == WriteAll(write, xs[..i]) + write(xs[i])
  {
    if i == 0 {
      assert xs[..1] == [xs[0]];
    } else {
      WriteAllSnoc(write, xs[1..], i - 1);
      assert xs[1..][..i] == xs[..i + 1][1..] && xs[1..][..i - 1] == xs[..i][1..];
    }
  }

  /** A marshaller's loop writes one more item. */
  lemma WriteStep<T>(write: T -> Bytes, xs: seq<T>, i: nat, start: Bytes)
    requires i < |xs|
    ensures (start + WriteAll(write, xs[..i])) + write(xs[i]) == start + WriteAll(write, xs[..i + 1])
  {
    WriteAllSnoc(write, xs, i);
    Joined(start, WriteAll(write, xs[..i]), write(xs[i]));
  }

  /** What reading gives when some items have been read already. */
  function Resumed<T>(done: seq<T>, p: Parsed<seq<T>>): Parsed<seq<T>> {
    if p.Fail? then Fail else Got(done + p.value, p.rest)
  }

  lemma ResumedStart<T>(p: Parsed<seq<T>>)
    ensures Resumed([], p) == p
  {
    if p.Got? {
      assert [] + p.value == p.value;
    }
  }

  lemma ResumedStep<T>(read: Bytes -> Parsed<T>, done: seq<T>, bs: Bytes, n: nat)
    requires n > 0
    ensures read(bs).Fail? ==> Resumed(done, ReadAll(read, bs, n)) == Fail
    ensures read(bs).Got? ==>
              Resumed(done, ReadAll(read, bs, n))
              == Resumed(done + [read(bs).value], ReadAll(read, read(bs).rest, n - 1))
  {
    if read(bs).Got? {
      var p := ReadAll(read, read(bs).rest, n - 1);
      if p.Got? {
        assert done + ([read(bs).value] + p.value) == (done + [read(bs).value]) + p.value;
      }
    }
  }

  /** The slots are made first and filled one by one; the readers of both lists share this loop. */
  method UnmarshalItems<T>(read: Bytes -> Parsed<T>, zero: T, r: CborReader, n: nat) returns (xs: Option<seq<T>>)
    modifies r
    ensures xs.Some? <==> ReadAll(read, old(r.input), n).Got?
    ensures xs.Some? ==> ReadAll(read, old(r.input), n) == Got(xs.value, r.input)
  {
    var slots := new T[n](_ => zero);
    ghost var done: seq<T> := [];
    ResumedStart(ReadAll(read, r.input, n));
    var i := 0;
    while i < n
      invariant i <= n
      invariant slots[..i] == done
      invariant ReadAll(read, old(r.input), n) == Resumed(done, ReadAll(read, r.input, n - i))
    {
      ResumedStep(read, done, r.input, n - i);
      var x := r.Advance(read(r.input));
      if x.None? {
        return None;
      }
      slots[i] := x.value;
      done := done + [x.value];
      i := i + 1;
    }
    assert done + [] == done;
    xs := Some(slots[..n]);
  }
}
