/** The ring of recently synced tipsets. */
module SyncBuffers {
  import opened Outcomes
  import opened Tipsets

  /** The last n of a history, or all of it if shorter. */
  function LastN(h: seq<Key>, n: nat): seq<Key> {
    if |h| <= n then h else h[|h| - n..]
  }

  /** Something in the list is ts itself or heavier. */
  predicate SyncedIn(list: seq<Key>, ts: Key) {
    exists r | r in list :: r == ts || Weight(r) > Weight(ts)
  }

  /** Where the k-th push goes in a ring of n slots. */
  ghost function Pos(k: nat, n: nat): (p: nat)
    requires n > 0
    ensures p < n
  {
    if k == 0 then 0
    else
      var p := Pos(k - 1, n);
      if p + 1 == n then 0 else p + 1
  }

  /** What slot i holds after the pushes h. */
  ghost function Slot(h: seq<Key>, n: nat, i: nat): Option<Key>
    requires n > 0
  {
    if h == [] then None
    else if Pos(|h| - 1, n) == i then Some(h[|h| - 1])
    else Slot(h[..|h| - 1], n, i)
  }

  lemma {:induction false} PosAdd(k: nat, d: nat, n: nat)
    requires n > 0 && d <= n
    ensures Pos(k + d, n) == if Pos(k, n) + d < n then Pos(k, n) + d else Pos(k, n) + d - n
  {
    if d > 0 {
      PosAdd(k, d - 1, n);
    }
  }

  lemma {:induction false} SlotOfRecent(h: seq<Key>, n: nat, k: nat)
    requires n > 0 && |h| - n <= k < |h|
    ensures Slot(h, n, Pos(k, n)) == Some(h[k])
  {
    if k < |h| - 1 {
      PosAdd(k, |h| - 1 - k, n);
      SlotOfRecent(h[..|h| - 1], n, k);
    }
  }

  lemma {:induction false} SlotIsRecent(h: seq<Key>, n: nat, i: nat) returns (k: nat)
    requires n > 0 && Slot(h, n, i).Some?
    ensures |h| - n <= k < |h| && Pos(k, n) == i && Slot(h, n, i) == Some(h[k])
  {
    if Pos(|h| - 1, n) == i {
      k := |h| - 1;
    } else {
      k := SlotIsRecent(h[..|h| - 1], n, i);
      if k == |h| - 1 - n {
        PosAdd(k, n, n);
      }
    }
  }

  /** The ring holds exactly the last n pushes. */
  lemma RingHoldsLastN(h: seq<Key>, n: nat, r: Key)
    requires n > 0
    ensures (exists i :: 0 <= i < n && Slot(h, n, i) == Some(r)) <==> r in LastN(h, n)
  {
    if r in LastN(h, n) {
      var j :| 0 <= j < |LastN(h, n)| && LastN(h, n)[j] == r;
      var k := if |h| <= n then j else |h| - n + j;
      SlotOfRecent(h, n, k);
    }
    if i :| 0 <= i < n && Slot(h, n, i) == Some(r) {
      var k := SlotIsRecent(h, n, i);
      assert LastN(h, n)[if |h| <= n then k else k - (|h| - n)] == r;
    }
  }

  class SyncBuffer {
    const buf: array<Option<Key>>
    var next: nat
    ghost var pushed: seq<Key>

    ghost predicate Valid()
      reads this, buf
    {
      && buf.Length > 0
      && next == Pos(|pushed|, buf.Length)
      && forall i | 0 <= i < buf.Length :: buf[i] == Slot(pushed, buf.Length, i)
    }

    constructor (size: nat)
      requires size > 0
      ensures Valid() && fresh(buf) && buf.Length == size && pushed == []
    {
      buf := new Option<Key>[size](i => None);
      next := 0;
      pushed := [];
    }

    method Push(ts: Key)
      requires Valid()
      modifies this, buf
      ensures Valid() && pushed == old(pushed) + [ts]
    {
      buf[next] := Some(ts);
      next := (next + 1) % buf.Length;
      pushed := pushed + [ts];
      assert pushed[..|pushed| - 1] == old(pushed);
    }

    method Synced(ts: Key) returns (r: bool)
      requires Valid()
      ensures r <==> SyncedIn(LastN(pushed, buf.Length), ts)
    {
      for i := 0 to buf.Length
        invariant forall j | 0 <= j < i && buf[j].Some? :: buf[j].value != ts && Weight(buf[j].value) <= Weight(ts)
      {
        if buf[i].Some? && (buf[i].value == ts || Weight(buf[i].value) > Weight(ts)) {
          assert Slot(pushed, buf.Length, i) == Some(buf[i].value);
          RingHoldsLastN(pushed, buf.Length, buf[i].value);
          return true;
        }
      }
      forall x | x in LastN(pushed, buf.Length)
        ensures x != ts && Weight(x) <= Weight(ts)
      {
        RingHoldsLastN(pushed, buf.Length, x);
      }
      return false;
    }
  }
}
