/** No reply is lost on its way, and a call that nothing gets in the way of comes back with its answer. */
module RemoteProgress {
  import opened Outcomes
  import opened Cbor
  import opened NetRpc
  import opened NetServer
  import opened NetClient
  import opened NetSystem
  import opened NetRemote
  import opened Runs

  // -- every reply received is handed out

  /** Some channel of the request has a message, or its caller has given up. */
  predicate SettledFor(c: Client, id: Id) {
    exists i | 0 <= i < |c.chans| :: c.chans[i].id == id && (c.chans[i].sent != [] || id in c.withdrawn)
  }

  /** Every request written has a channel, and every one whose reply was received is settled. */
  predicate HandedOut(sys: System) {
    && sys.received <= |sys.sentIds|
    && (forall k | 0 <= k < |sys.sentIds| :: HasChan(sys.client.chans, sys.sentIds[k]))
    && (forall k | 0 <= k < sys.received :: SettledFor(sys.client, sys.sentIds[k]))
  }

  /** Channels stay, with what was sent on them, and so do withdrawals. */
  predicate Keeps(c: Client, d: Client) {
    && |c.chans| <= |d.chans| && c.withdrawn <= d.withdrawn
    && forall i | 0 <= i < |c.chans| ::
         d.chans[i].id == c.chans[i].id && (c.chans[i].sent != [] ==> d.chans[i].sent != [])
  }

  lemma StepKeepsChans(c: Client, e: Event)
    requires Enabled(c, e)
    ensures Keeps(c, Step(c, e))
  {
  }

  lemma KeepsSettled(c: Client, d: Client, id: Id)
    requires Keeps(c, d)
    ensures SettledFor(c, id) ==> SettledFor(d, id)
    ensures HasChan(c.chans, id) ==> HasChan(d.chans, id)
  {
    if i :| 0 <= i < |c.chans| && c.chans[i].id == id && (c.chans[i].sent != [] || id in c.withdrawn) {
      assert d.chans[i].id == id;
    }
    if i :| 0 <= i < |c.chans| && c.chans[i].id == id {
      assert d.chans[i].id == id;
    }
  }

  /** A reply to a request that has a channel settles it. */
  lemma DeliverSettles(c: Client, resp: NetRpcResp)
    requires Inv(c) && Enabled(c, Deliver(resp)) && HasChan(c.chans, resp.id)
    ensures SettledFor(Step(c, Deliver(resp)), resp.id)
  {
    var d := Step(c, Deliver(resp));
    if resp.id in c.respMap.value {
      var ch := c.respMap.value[resp.id];
      assert d.chans[ch].id == resp.id && d.chans[ch].sent != [];
    } else {
      var i :| 0 <= i < |c.chans| && c.chans[i].id == resp.id;
      assert Awaited(c, i);
      assert d.chans[i] == c.chans[i];
    }
  }

  lemma QuietHandsOut(sys: System, after: System)
    requires HandedOut(sys) && Keeps(sys.client, after.client)
    requires after.sentIds == sys.sentIds && after.received == sys.received
    ensures HandedOut(after)
  {
    forall k | 0 <= k < |sys.sentIds|
      ensures HasChan(after.client.chans, sys.sentIds[k])
      ensures k < sys.received ==> SettledFor(after.client, sys.sentIds[k])
    {
      KeepsSettled(sys.client, after.client, sys.sentIds[k]);
    }
  }

  /** The next reply carries the id of the request it answers. */
  lemma NextReplyEchoes(w: Wire, sys: System)
    requires Echoes(w) && SysInv(w, sys) && sys.received < |sys.down|
    ensures sys.received < |sys.sentIds| && EchoesId(w, sys.down[sys.received], sys.sentIds[sys.received])
  {
    var k := sys.received;
    assert RepliedOk(w, sys.up[k], sys.stores[k], sys.faults[k], sys.down[k]);
    assert RequestIs(w, sys.calls, sys.sentIds[k], sys.up[k]);
  }

  lemma DeliverHandsOut(sys: System, resp: NetRpcResp)
    requires HandedOut(sys) && Inv(sys.client) && Enabled(sys.client, Deliver(resp))
    requires sys.received < |sys.sentIds| && resp.id == sys.sentIds[sys.received]
    ensures HandedOut(sys.(client := Step(sys.client, Deliver(resp)), received := sys.received + 1))
  {
    DeliverSettles(sys.client, resp);
    StepKeepsChans(sys.client, Deliver(resp));
    QuietHandsOut(sys, sys.(client := Step(sys.client, Deliver(resp))));
  }

  lemma ReceiveHandsOut(w: Wire, sys: System, data: Bytes)
    requires Echoes(w) && SysInv(w, sys) && HandedOut(sys) && Can(w, sys, ReceiveNext(data))
    ensures HandedOut(Do(w, sys, ReceiveNext(data)))
  {
    NextReplyEchoes(w, sys);
    DeliverHandsOut(sys, w.reply(sys.down[sys.received]).value);
  }

  lemma DoHandsOut(w: Wire, sys: System, a: Action)
    requires Echoes(w) && SysInv(w, sys) && HandedOut(sys) && Can(w, sys, a)
    ensures HandedOut(Do(w, sys, a))
  {
    match a
    case ReceiveNext(data) => ReceiveHandsOut(w, sys, data);
    case NewId => StepKeepsChans(sys.client, Alloc); QuietHandsOut(sys, Do(w, sys, a));
    case Begin(id, op) => StepKeepsChans(sys.client, Register(id)); QuietHandsOut(sys, Do(w, sys, a));
    case GiveUp(id) => StepKeepsChans(sys.client, Withdraw(id)); QuietHandsOut(sys, Do(w, sys, a));
    case TakeReply(ch) => StepKeepsChans(sys.client, Take(ch)); QuietHandsOut(sys, Do(w, sys, a));
    case Close(data) => StepKeepsChans(sys.client, Shutdown(data)); QuietHandsOut(sys, Do(w, sys, a));
    case Write(id) =>
    case ServeNext(fault) => QuietHandsOut(sys, Do(w, sys, a));
  }

  /** In every run, the caller of every request whose reply was received has been handed a message, unless it gave up
      first. */
  lemma {:induction false} RepliesAreHandedOut(w: Wire, s: Store, ss: seq<System>, acts: seq<Action>, n: nat)
    requires Echoes(w) && SysRun(w, s, ss, acts) && n < |ss|
    ensures HandedOut(ss[n])
  {
    if n > 0 {
      RepliesAreHandedOut(w, s, ss, acts, n - 1);
      SysRunsAreSafe(w, s, ss, acts, n - 1);
      SysRunNext(w, s, ss, acts, n - 1);
      DoHandsOut(w, ss[n - 1], acts[n - 1]);
    }
  }

  // -- a call on its own

  /** Everything written has been handled and every reply received; both ends are open. */
  predicate Quiet(sys: System) {
    sys.open && sys.client.respMap.Some? && |sys.faults| == |sys.up| && sys.received == |sys.down|
    && sys.client.count + 1 < U64
  }

  function NextId(sys: System): Id
    requires sys.client.count + 1 < U64
  {
    sys.client.count + 1
  }

  function CurrentStore(sys: System): Store
    requires |sys.stores| > 0
  {
    sys.stores[|sys.stores| - 1]
  }

  /** What one call does, step by step. */
  function CallActs(op: Op, id: Id, ch: nat): seq<Action> {
    [NewId, Begin(id, op), Write(id), ServeNext(None), ReceiveNext([]), TakeReply(ch)]
  }

  /** The request is registered and written. */
  ghost predicate Asked(w: Wire, sys: System, op: Op, id: Id, ch: nat, t: System) {
    && t.open && t.stores == sys.stores && t.faults == sys.faults && t.down == sys.down
    && t.received == sys.received && w.request(op, id).Some? && t.up == sys.up + [w.request(op, id).value]
    && t.client.respMap.Some? && id in t.client.respMap.value && t.client.respMap.value[id] == ch
    && ch < |t.client.chans| && t.client.chans[ch] == Chan(id, [], 0)
  }

  lemma FreshId(w: Wire, sys: System)
    requires SysInv(w, sys) && Quiet(sys)
    ensures NextId(sys) !in sys.sentIds
  {
    forall i | 0 <= i < |sys.sentIds|
      ensures sys.sentIds[i] != NextId(sys)
    {
      assert RequestIs(w, sys.calls, sys.sentIds[i], sys.up[i]);
    }
  }

  lemma AskSteps(w: Wire, sys: System, op: Op) returns (a: System, b: System, t: System)
    requires SysInv(w, sys) && Quiet(sys) && w.request(op, NextId(sys)).Some?
    ensures var id := NextId(sys);
            && NetSystem.Next(w, sys, NewId, a) && NetSystem.Next(w, a, Begin(id, op), b)
            && NetSystem.Next(w, b, Write(id), t) && Asked(w, sys, op, id, |sys.client.chans|, t)
  {
    var id := NextId(sys);
    FreshId(w, sys);
    a := Do(w, sys, NewId);
    b := Do(w, a, Begin(id, op));
    assert b.client.chans[|sys.client.chans|].id == id;
    t := Do(w, b, Write(id));
  }

  /** The server answers the message and goes on, and the client reads the answer as resp. */
  predicate AnswersWith(w: Wire, msg: Bytes, s: Store, resp: NetRpcResp, after: Store) {
    var served := w.serve(msg, s, None);
    served.open && served.store == after && served.reply.Some? && w.reply(served.reply.value) == Some(resp)
  }

  /** The reply is in the channel. */
  predicate Delivered(t: System, ch: nat, resp: NetRpcResp) {
    ch < |t.client.chans| && t.client.chans[ch].sent == [Msg(resp, None)]
  }

  lemma ReplySteps(w: Wire, sys: System, op: Op, id: Id, ch: nat, t: System, resp: NetRpcResp, after: Store)
    returns (u: System, v: System, z: System)
    requires |sys.stores| == |sys.faults| + 1 && |sys.faults| == |sys.up| && sys.received == |sys.down|
    requires Asked(w, sys, op, id, ch, t) && resp.id == id && resp.ty != RESP_MORE
    requires AnswersWith(w, w.request(op, id).value, CurrentStore(sys), resp, after)
    ensures NetSystem.Next(w, t, ServeNext(None), u) && NetSystem.Next(w, u, ReceiveNext([]), v)
    ensures NetSystem.Next(w, v, TakeReply(ch), z)
    ensures Delivered(z, ch, resp) && z.stores == sys.stores + [after]
  {
    u := Do(w, t, ServeNext(None));
    assert u.client == t.client && w.reply(u.down[u.received]) == Some(resp);
    v := Do(w, u, ReceiveNext([]));
    assert v.client == DeliverTo(t.client, resp, ch);
    z := Do(w, v, TakeReply(ch));
  }

  lemma SixSteps<S, E>(next: (S, E, S) -> bool, es: seq<E>, ss: seq<S>)
    requires |es| == 6 && |ss| == 7
    requires next(ss[0], es[0], ss[1]) && next(ss[1], es[1], ss[2]) && next(ss[2], es[2], ss[3])
    requires next(ss[3], es[3], ss[4]) && next(ss[4], es[4], ss[5]) && next(ss[5], es[5], ss[6])
    ensures RunOf(next, ss[0], es, ss)
  {
  }

  lemma CallRuns(w: Wire, sys: System, op: Op, resp: NetRpcResp, after: Store) returns (ss: seq<System>)
    requires SysInv(w, sys) && Quiet(sys) && w.request(op, NextId(sys)).Some?
    requires resp.id == NextId(sys) && resp.ty != RESP_MORE
    requires AnswersWith(w, w.request(op, NextId(sys)).value, CurrentStore(sys), resp, after)
    ensures var ch := |sys.client.chans|;
            && RunOf(NextOf(w), sys, CallActs(op, NextId(sys), ch), ss)
            && Delivered(ss[6], ch, resp) && ss[6].stores == sys.stores + [after]
  {
    var id, ch := NextId(sys), |sys.client.chans|;
    var a, b, t := AskSteps(w, sys, op);
    var u, v, z := ReplySteps(w, sys, op, id, ch, t, resp, after);
    ss := [sys, a, b, t, u, v, z];
    SixSteps(NextOf(w), CallActs(op, id, ch), ss);
  }

  lemma CborAnswers(texts: Texts, op: Op, id: Id, s: Store) returns (resp: NetRpcResp)
    requires Sendable(op, id) && SaneCids(op, id) && TextFits(texts, op, s)
    ensures CborRequest(op, id).Some?
    ensures AnswersWith(CborWire(texts), CborRequest(op, id).value, s, resp, Apply(op, s))
    ensures resp.id == id && resp.ty != RESP_MORE && Interpret(op, resp) == Expected(texts, op, s)
  {
    RemoteCall(texts, op, id, s);
    resp := UnmarshalResp(Serve(texts, MarshalReq(ReqOf(op, id)).value, s, None).reply.value).value;
  }

  /** From every reachable state in which nothing is under way and both ends are open, a call that can be sent is
      answered: registering, writing, serving, receiving and taking the reply are possible one after the other, and
      they end with the answer, and the store, of the same operation on the server's store. */
  lemma CallComesBack(texts: Texts, sys: System, op: Op) returns (ss: seq<System>, resp: NetRpcResp)
    requires SysInv(CborWire(texts), sys) && Quiet(sys)
    requires Sendable(op, NextId(sys)) && SaneCids(op, NextId(sys)) && TextFits(texts, op, CurrentStore(sys))
    ensures RunOf(NextOf(CborWire(texts)), sys, CallActs(op, NextId(sys), |sys.client.chans|), ss)
    ensures Delivered(ss[6], |sys.client.chans|, resp) && Interpret(op, resp) == Expected(texts, op, CurrentStore(sys))
    ensures ss[6].stores == sys.stores + [Apply(op, CurrentStore(sys))]
  {
    resp := CborAnswers(texts, op, NextId(sys), CurrentStore(sys));
    ss := CallRuns(CborWire(texts), sys, op, resp, Apply(op, CurrentStore(sys)));
  }
}
