/** The client half of the network blockstore (blockstore/net.go) as a state machine: callers that register response
    channels of capacity one, a receiver that hands replies out, cancellation and shutdown, in any interleaving. Each
    step is one section under the response lock, or one operation on a channel or the request counter. */
module NetClient {
  import opened Outcomes
  import opened Cbor
  import opened NetRpc
  import opened NetServer
  import opened Runs

  type Id = Uint64

  /** A message in a channel; `next` is the channel further messages will arrive on. */
  datatype Msg = Msg(resp: NetRpcResp, next: Option<nat>)

  /** A channel and everything ever sent on it; the first `taken` messages have been received. */
  datatype Chan = Chan(id: Id, sent: seq<Msg>, taken: nat)

  /** `respMap` is None once the store is closed; `withdrawn` records the requests whose caller stopped waiting. */
  datatype Client = Client(
    count: Id,
    given: set<Id>,
    respMap: Option<map<Id, nat>>,
    chans: seq<Chan>,
    withdrawn: set<Id>)

  datatype Event =
    | Alloc
    | Register(id: Id)
    | Withdraw(id: Id)
    | Deliver(resp: NetRpcResp)
    | Shutdown(data: Bytes)
    | Take(ch: nat)

  const START: Client := Client(0, {}, Some(map[]), [], {})

  function Room(ch: Chan): int {
    1 - (|ch.sent| - ch.taken)
  }

  function Sent(ch: Chan, m: Msg): Chan {
    ch.(sent := ch.sent + [m])
  }

  function CloseMsg(id: Id, data: Bytes): Msg {
    Msg(NetRpcResp(RESP_ERR, id, data), None)
  }

  predicate HasChan(chans: seq<Chan>, id: Id) {
    exists i | 0 <= i < |chans| :: chans[i].id == id
  }

  predicate Enabled(c: Client, e: Event) {
    match e
    case Alloc => c.count + 1 < U64
    case Register(id) => id in c.given
    case Withdraw(id) => HasChan(c.chans, id)
    case Deliver(resp) => c.respMap.Some? && (resp.id in c.respMap.value ==> c.respMap.value[resp.id] < |c.chans|)
    case Shutdown(_) => c.respMap.Some?
    case Take(ch) => ch < |c.chans| && c.chans[ch].taken < |c.chans[ch].sent|
  }

  /** A reply that more will follow is handed out with a fresh channel for them. */
  function DeliverTo(c: Client, resp: NetRpcResp, ch: nat): Client
    requires c.respMap.Some? && ch < |c.chans|
  {
    var added := |c.chans|;
    if resp.ty == RESP_MORE then
      c.(respMap := Some(c.respMap.value[resp.id := added]),
         chans := c.chans[ch := Sent(c.chans[ch], Msg(resp, Some(added)))] + [Chan(resp.id, [], 0)])
    else
      c.(respMap := Some(c.respMap.value - {resp.id}),
         chans := c.chans[ch := Sent(c.chans[ch], Msg(resp, None))])
  }

  /** Every registered channel gets an error. */
  function CloseAll(chans: seq<Chan>, m: map<Id, nat>, data: Bytes): seq<Chan> {
    seq(|chans|, i requires 0 <= i < |chans| =>
      if chans[i].id in m && m[chans[i].id] == i then Sent(chans[i], CloseMsg(chans[i].id, data)) else chans[i])
  }

  function Step(c: Client, e: Event): Client
    requires Enabled(c, e)
  {
    match e
    case Alloc => c.(count := c.count + 1, given := c.given + {c.count + 1})
    case Register(id) =>
      var d := c.(given := c.given - {id});
      if c.respMap.None? then d
      else d.(respMap := Some(c.respMap.value[id := |c.chans|]), chans := c.chans + [Chan(id, [], 0)])
    case Withdraw(id) =>
      c.(respMap := if c.respMap.None? then None else Some(c.respMap.value - {id}), withdrawn := c.withdrawn + {id})
    case Deliver(resp) =>
      if resp.id in c.respMap.value then DeliverTo(c, resp, c.respMap.value[resp.id]) else c
    case Shutdown(data) => c.(respMap := None, chans := CloseAll(c.chans, c.respMap.value, data))
    case Take(ch) => c.(chans := c.chans[ch := c.chans[ch].(taken := c.chans[ch].taken + 1)])
  }

  // -- the invariant

  /** A registered channel belongs to its request and nothing has been sent on it. */
  predicate Mapped(m: map<Id, nat>, chans: seq<Chan>) {
    forall id | id in m :: m[id] < |chans| && chans[m[id]].id == id && chans[m[id]].sent == []
  }

  predicate ChanOk(ch: Chan) {
    ch.taken <= |ch.sent| <= 1 && (|ch.sent| == 1 ==> ch.sent[0].resp.id == ch.id)
  }

  predicate ChansOk(chans: seq<Chan>) {
    forall i | 0 <= i < |chans| :: ChanOk(chans[i])
  }

  predicate IdsOk(count: Id, given: set<Id>, chans: seq<Chan>) {
    && (forall id | id in given :: id <= count && !HasChan(chans, id))
    && (forall i | 0 <= i < |chans| :: chans[i].id <= count)
  }

  /** Who waits on a channel that nothing was sent on is registered, or has given up. */
  predicate Awaited(c: Client, i: nat)
    requires i < |c.chans|
  {
    c.chans[i].sent != [] || c.chans[i].id in c.withdrawn
    || (c.respMap.Some? && c.chans[i].id in c.respMap.value && c.respMap.value[c.chans[i].id] == i)
  }

  predicate AllAwaited(c: Client) {
    forall i | 0 <= i < |c.chans| :: Awaited(c, i)
  }

  /** Who has given up once had a channel and is no longer registered. */
  predicate GivenUpOk(withdrawn: set<Id>, respMap: Option<map<Id, nat>>, chans: seq<Chan>) {
    forall id | id in withdrawn :: HasChan(chans, id) && (respMap.Some? ==> id !in respMap.value)
  }

  lemma ChanStays(chans: seq<Chan>, more: seq<Chan>, id: Id)
    requires HasChan(chans, id) && |chans| <= |more| && forall i | 0 <= i < |chans| :: more[i].id == chans[i].id
    ensures HasChan(more, id)
  {
    var i :| 0 <= i < |chans| && chans[i].id == id;
    assert more[i].id == id;
  }

  lemma GivenUpKeeps(c: Client, e: Event)
    requires Inv(c) && Enabled(c, e)
    ensures var d := Step(c, e); GivenUpOk(d.withdrawn, d.respMap, d.chans)
  {
    var d := Step(c, e);
    assert |c.chans| <= |d.chans| && forall i | 0 <= i < |c.chans| :: d.chans[i].id == c.chans[i].id;
    forall id | id in d.withdrawn
      ensures HasChan(d.chans, id) && (d.respMap.Some? ==> id !in d.respMap.value)
    {
      assert HasChan(c.chans, id);
      ChanStays(c.chans, d.chans, id);
    }
  }

  predicate Inv(c: Client) {
    && (c.respMap.Some? ==> Mapped(c.respMap.value, c.chans))
    && ChansOk(c.chans)
    && IdsOk(c.count, c.given, c.chans)
    && AllAwaited(c)
    && GivenUpOk(c.withdrawn, c.respMap, c.chans)
  }

  lemma AllocKeeps(c: Client)
    requires Inv(c) && Enabled(c, Alloc)
    ensures Inv(Step(c, Alloc))
  {
    GivenUpKeeps(c, Alloc);
    assert c.respMap == Step(c, Alloc).respMap;
    forall i | 0 <= i < |c.chans|
      ensures Awaited(Step(c, Alloc), i)
    {
      assert Awaited(c, i);
    }
  }

  lemma RegisterKeeps(c: Client, id: Id)
    requires Inv(c) && Enabled(c, Register(id))
    ensures Inv(Step(c, Register(id)))
  {
    GivenUpKeeps(c, Register(id));
    var d := Step(c, Register(id));
    forall i | 0 <= i < |d.chans|
      ensures Awaited(d, i)
    {
      if i < |c.chans| {
        assert Awaited(c, i);
        assert !HasChan(c.chans, id);
        assert c.chans[i].id != id;
      }
    }
    forall x | x in d.given
      ensures !HasChan(d.chans, x)
    {
      assert !HasChan(c.chans, x);
    }
  }

  lemma WithdrawKeeps(c: Client, id: Id)
    requires Inv(c) && Enabled(c, Withdraw(id))
    ensures Inv(Step(c, Withdraw(id)))
  {
    GivenUpKeeps(c, Withdraw(id));
    var d := Step(c, Withdraw(id));
    forall i | 0 <= i < |d.chans|
      ensures Awaited(d, i)
    {
      assert Awaited(c, i);
    }
  }

  /** Sending on one registered channel, which then is no longer the registered one of its request. */
  lemma DeliverKeeps(c: Client, resp: NetRpcResp)
    requires Inv(c) && Enabled(c, Deliver(resp))
    ensures Inv(Step(c, Deliver(resp)))
  {
    GivenUpKeeps(c, Deliver(resp));
    if resp.id in c.respMap.value {
      var ch := c.respMap.value[resp.id];
      var d := DeliverTo(c, resp, ch);
      DeliverKeepsMap(c, resp);
      DeliverKeepsIds(c, resp);
      forall i | 0 <= i < |d.chans|
        ensures Awaited(d, i)
      {
        if i < |c.chans| && i != ch {
          assert Awaited(c, i);
          assert d.chans[i] == c.chans[i];
        }
      }
    }
  }

  lemma DeliverKeepsMap(c: Client, resp: NetRpcResp)
    requires Inv(c) && Enabled(c, Deliver(resp)) && resp.id in c.respMap.value
    ensures var d := Step(c, Deliver(resp)); Mapped(d.respMap.value, d.chans) && ChansOk(d.chans)
  {
    var ch := c.respMap.value[resp.id];
    var d := DeliverTo(c, resp, ch);
    assert c.chans[ch].sent == [];
    forall id | id in d.respMap.value
      ensures d.respMap.value[id] < |d.chans| && d.chans[d.respMap.value[id]].id == id
              && d.chans[d.respMap.value[id]].sent == []
    {
      if id != resp.id {
        assert c.respMap.value[id] != ch;
      }
    }
  }

  lemma DeliverKeepsIds(c: Client, resp: NetRpcResp)
    requires Inv(c) && Enabled(c, Deliver(resp)) && resp.id in c.respMap.value
    ensures var d := Step(c, Deliver(resp)); IdsOk(d.count, d.given, d.chans)
  {
    var ch := c.respMap.value[resp.id];
    var d := DeliverTo(c, resp, ch);
    assert forall i | 0 <= i < |c.chans| :: d.chans[i].id == c.chans[i].id;
    forall x | x in d.given
      ensures !HasChan(d.chans, x)
    {
      assert !HasChan(c.chans, x) && c.chans[ch].id == resp.id;
    }
  }

  lemma ShutdownKeeps(c: Client, data: Bytes)
    requires Inv(c) && Enabled(c, Shutdown(data))
    ensures Inv(Step(c, Shutdown(data)))
  {
    GivenUpKeeps(c, Shutdown(data));
    var d := Step(c, Shutdown(data));
    forall i | 0 <= i < |d.chans|
      ensures Awaited(d, i) && ChanOk(d.chans[i]) && d.chans[i].id == c.chans[i].id
    {
      assert Awaited(c, i);
    }
    forall x | x in d.given
      ensures !HasChan(d.chans, x)
    {
      assert !HasChan(c.chans, x);
    }
  }

  lemma TakeKeeps(c: Client, ch: nat)
    requires Inv(c) && Enabled(c, Take(ch))
    ensures Inv(Step(c, Take(ch)))
  {
    GivenUpKeeps(c, Take(ch));
    var d := Step(c, Take(ch));
    forall i | 0 <= i < |d.chans|
      ensures Awaited(d, i) && d.chans[i].id == c.chans[i].id
    {
      assert Awaited(c, i);
    }
    forall x | x in d.given
      ensures !HasChan(d.chans, x)
    {
      assert !HasChan(c.chans, x);
    }
  }

  lemma StepKeeps(c: Client, e: Event)
    requires Inv(c) && Enabled(c, e)
    ensures Inv(Step(c, e))
  {
    match e
    case Alloc => AllocKeeps(c);
    case Register(id) => RegisterKeeps(c, id);
    case Withdraw(id) => WithdrawKeeps(c, id);
    case Deliver(resp) => DeliverKeeps(c, resp);
    case Shutdown(data) => ShutdownKeeps(c, data);
    case Take(ch) => TakeKeeps(c, ch);
  }

  // -- runs

  predicate Next(c: Client, e: Event, d: Client) {
    Enabled(c, e) && d == Step(c, e)
  }

  ghost predicate Run(cs: seq<Client>, es: seq<Event>) {
    RunOf(Next, START, es, cs)
  }

  lemma {:induction false} RunsAreSafe(cs: seq<Client>, es: seq<Event>, n: nat)
    requires Run(cs, es) && n < |cs|
    ensures Inv(cs[n])
  {
    if n > 0 {
      RunsAreSafe(cs, es, n - 1);
      RunStep(Next, START, es, cs, n - 1);
      StepKeeps(cs[n - 1], es[n - 1]);
    }
  }

  /** No step sends on a channel that has no room, so no send waits while the lock is held; and no channel is ever
      sent to twice. */
  lemma SendsNeverBlock(cs: seq<Client>, es: seq<Event>, n: nat, i: nat)
    requires Run(cs, es) && n < |es| && i < |cs[n].chans|
    ensures i < |cs[n + 1].chans|
    ensures cs[n + 1].chans[i].sent != cs[n].chans[i].sent ==>
              cs[n].chans[i].sent == [] && Room(cs[n].chans[i]) > 0 && |cs[n + 1].chans[i].sent| == 1
  {
    RunsAreSafe(cs, es, n);
    RunStep(Next, START, es, cs, n);
    OnlyFreshChannels(cs[n], es[n], i);
  }

  lemma OnlyFreshChannels(c: Client, e: Event, i: nat)
    requires Inv(c) && Enabled(c, e) && i < |c.chans|
    ensures i < |Step(c, e).chans|
    ensures Step(c, e).chans[i].sent != c.chans[i].sent ==>
              c.chans[i].sent == [] && Room(c.chans[i]) > 0 && |Step(c, e).chans[i].sent| == 1
  {
    assert ChanOk(c.chans[i]);
  }

  /** Delivering a reply sends it on one channel of its request, if any; shutting down sends the error. */
  lemma DeliverSends(c: Client, resp: NetRpcResp, i: nat)
    requires Inv(c) && Enabled(c, Deliver(resp)) && i < |Step(c, Deliver(resp)).chans|
    ensures var after := Step(c, Deliver(resp)).chans[i];
            if i >= |c.chans| then after.sent == []
            else after.id == c.chans[i].id
                 && (|| after.sent == c.chans[i].sent
                     || (after.id == resp.id && |after.sent| == 1 && after.sent[0].resp == resp))
  {
    if i < |c.chans| {
      OnlyFreshChannels(c, Deliver(resp), i);
    }
  }

  lemma ShutdownSends(c: Client, data: Bytes, i: nat)
    requires Inv(c) && Enabled(c, Shutdown(data)) && i < |c.chans|
    ensures var after := Step(c, Shutdown(data)).chans;
            |after| == |c.chans| && after[i].id == c.chans[i].id
            && (after[i].sent == c.chans[i].sent || after[i].sent == [CloseMsg(c.chans[i].id, data)])
  {
    OnlyFreshChannels(c, Shutdown(data), i);
  }

  /** Whatever was delivered to a caller carries the id of the caller's request. */
  lemma RepliesCarryTheirId(cs: seq<Client>, es: seq<Event>, n: nat, i: nat)
    requires Run(cs, es) && n < |cs| && i < |cs[n].chans| && cs[n].chans[i].sent != []
    ensures |cs[n].chans[i].sent| == 1 && cs[n].chans[i].sent[0].resp.id == cs[n].chans[i].id
  {
    RunsAreSafe(cs, es, n);
    assert ChanOk(cs[n].chans[i]);
  }

  /** Once closed, the store stays closed, nobody can register any more, and every caller who still waits has its
      message. */
  lemma {:induction false} ClosedForGood(cs: seq<Client>, es: seq<Event>, n: nat, m: nat)
    requires Run(cs, es) && n <= m < |cs| && cs[n].respMap.None?
    ensures cs[m].respMap.None? && |cs[m].chans| == |cs[n].chans|
    ensures forall i | 0 <= i < |cs[m].chans| :: cs[m].chans[i].sent != [] || cs[m].chans[i].id in cs[m].withdrawn
  {
    RunsAreSafe(cs, es, m);
    if n < m {
      ClosedForGood(cs, es, n, m - 1);
      RunStep(Next, START, es, cs, m - 1);
    }
    forall i | 0 <= i < |cs[m].chans|
      ensures cs[m].chans[i].sent != [] || cs[m].chans[i].id in cs[m].withdrawn
    {
      assert Awaited(cs[m], i);
    }
  }

  /** Once a caller has given up its request is registered no more, and replies to it change nothing. */
  lemma {:induction false} GivenUpForGood(cs: seq<Client>, es: seq<Event>, n: nat, m: nat, id: Id)
    requires Run(cs, es) && n < m < |cs| && es[n] == Withdraw(id)
    ensures id in cs[m].withdrawn && (cs[m].respMap.Some? ==> id !in cs[m].respMap.value)
    ensures forall resp: NetRpcResp | resp.id == id && Enabled(cs[m], Deliver(resp)) ::
              Step(cs[m], Deliver(resp)) == cs[m]
  {
    RunsAreSafe(cs, es, m);
    RunStep(Next, START, es, cs, m - 1);
    if n < m - 1 {
      GivenUpForGood(cs, es, n, m - 1, id);
    }
  }

  /** A reply that more will follow, type 2, is handed out with a fresh channel, which is the one registered from then
      on; any other reply ends the registration. */
  lemma MoreIsAwaited(c: Client, resp: NetRpcResp)
    requires Inv(c) && Enabled(c, Deliver(resp)) && resp.id in c.respMap.value
    ensures var d, ch := Step(c, Deliver(resp)), c.respMap.value[resp.id];
            && d.respMap.Some? && |c.chans| <= |d.chans| && |d.chans[ch].sent| == 1
            && var m := d.chans[ch].sent[0];
              && m.resp == resp
              && if resp.ty == 2 then
                   && m.next == Some(|c.chans|) && d.chans[|c.chans|..] == [Chan(resp.id, [], 0)]
                   && resp.id in d.respMap.value && d.respMap.value[resp.id] == |c.chans|
                 else m.next.None? && resp.id !in d.respMap.value && |d.chans| == |c.chans|
  {
    assert Mapped(c.respMap.value, c.chans);
  }

  lemma {:induction false} TakenStays(cs: seq<Client>, es: seq<Event>, n: nat, m: nat, i: nat)
    requires Run(cs, es) && n <= m < |cs| && i < |cs[n].chans|
    ensures i < |cs[m].chans| && cs[n].chans[i].taken <= cs[m].chans[i].taken
  {
    if n < m {
      TakenStays(cs, es, n, m - 1, i);
      RunStep(Next, START, es, cs, m - 1);
    }
  }

  /** A message is taken from its channel once: no later step takes from the same channel again. */
  lemma TakenOnce(cs: seq<Client>, es: seq<Event>, n: nat, m: nat, i: nat)
    requires Run(cs, es) && n < m < |es| && es[n] == Take(i)
    ensures es[m] != Take(i)
  {
    RunStep(Next, START, es, cs, n);
    RunStep(Next, START, es, cs, m);
    TakenStays(cs, es, n + 1, m, i);
    RunsAreSafe(cs, es, m);
    assert ChanOk(cs[m].chans[i]);
  }

  /** Whoever is told that the store closed reads an error, whatever it asked for. */
  lemma ClosingIsAnError(op: Op, id: Id, text: Bytes)
    requires |text| <= MAX_LENGTH
    ensures var data := MarshalErr(NetRpcErr(ERR_GENERIC, text, None));
            data.Some? && Interpret(op, CloseMsg(id, data.value).resp) == Refused(text)
  {
    var err := NetRpcErr(ERR_GENERIC, text, None);
    ErrRoundTrip(err, []);
    assert MarshalErr(err).value + [] == MarshalErr(err).value;
  }
}
