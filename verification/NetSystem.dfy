/** Client and server joined by two FIFO streams. Any number of calls are under way at once; requests are written,
    served and answered one at a time, in any interleaving with registration, cancellation and shutdown. */
module NetSystem {
  import opened Outcomes
  import opened Cbor
  import opened NetRpc
  import opened NetServer
  import opened NetClient
  import opened Runs

  /** The wire format and the server, as far as the streams are concerned: what a call writes, if it can be written;
      what the server does with a message; how the client reads a reply. */
  datatype Wire = Wire(
    request: (Op, Id) -> Option<Bytes>,
    serve: (Bytes, Store, Option<Fault>) -> Served,
    reply: Bytes -> Option<NetRpcResp>)

  /** A reply carries the id of its request, and a server that goes on has replied. */
  ghost predicate Echoes(w: Wire) {
    && (forall op, id, s, f | w.request(op, id).Some? && w.serve(w.request(op, id).value, s, f).reply.Some? ::
          EchoesId(w, w.serve(w.request(op, id).value, s, f).reply.value, id))
    && (forall msg, s, f :: w.serve(msg, s, f).open ==> w.serve(msg, s, f).reply.Some?)
  }

  predicate EchoesId(w: Wire, msg: Bytes, id: Id) {
    w.reply(msg).Some? && w.reply(msg).value.id == id
  }

  /** `calls` says which operation each request id is for. `up` and `down` hold every message ever written to each
      stream; the server has handled the first |faults| requests, and `stores[i]` is its store before the i-th. */
  datatype System = System(
    client: Client,
    calls: map<Id, Op>,
    sentIds: seq<Id>,
    up: seq<Bytes>,
    stores: seq<Store>,
    faults: seq<Option<Fault>>,
    open: bool,
    down: seq<Bytes>,
    received: nat,
    closing: Option<Bytes>)

  datatype Action =
    | NewId
    | Begin(id: Id, op: Op)
    | Write(id: Id)
    | ServeNext(fault: Option<Fault>)
    | ReceiveNext(data: Bytes)
    | GiveUp(id: Id)
    | TakeReply(ch: nat)
    | Close(data: Bytes)

  function Initial(s: Store): System {
    System(START, map[], [], [], [s], [], true, [], 0, None)
  }

  predicate Can(w: Wire, sys: System, a: Action) {
    match a
    case NewId => Enabled(sys.client, Alloc)
    case Begin(id, _) => Enabled(sys.client, Register(id))
    case Write(id) =>
      id in sys.calls && HasChan(sys.client.chans, id) && id !in sys.sentIds && w.request(sys.calls[id], id).Some?
    case ServeNext(_) => sys.open && |sys.faults| < |sys.up| && |sys.stores| == |sys.faults| + 1
    case ReceiveNext(_) =>
      && sys.received < |sys.down| && Enabled(sys.client, Shutdown([]))
      && (w.reply(sys.down[sys.received]).Some? ==>
            Enabled(sys.client, Deliver(w.reply(sys.down[sys.received]).value)))
    case GiveUp(id) => Enabled(sys.client, Withdraw(id))
    case TakeReply(ch) => Enabled(sys.client, Take(ch))
    case Close(data) => Enabled(sys.client, Shutdown(data))
  }

  function DoServe(w: Wire, sys: System, fault: Option<Fault>): System
    requires Can(w, sys, ServeNext(fault))
  {
    var n := |sys.faults|;
    var served := w.serve(sys.up[n], sys.stores[n], fault);
    sys.(stores := sys.stores + [served.store],
         faults := sys.faults + [fault],
         open := served.open,
         down := sys.down + if served.reply.Some? then [served.reply.value] else [])
  }

  function DoReceive(w: Wire, sys: System, data: Bytes): System
    requires Can(w, sys, ReceiveNext(data))
  {
    match w.reply(sys.down[sys.received])
    case None => sys.(client := Step(sys.client, Shutdown(data)), received := sys.received + 1, closing := Some(data))
    case Some(resp) => sys.(client := Step(sys.client, Deliver(resp)), received := sys.received + 1)
  }

  function Do(w: Wire, sys: System, a: Action): System
    requires Can(w, sys, a)
  {
    match a
    case NewId => sys.(client := Step(sys.client, Alloc))
    case Begin(id, op) => sys.(client := Step(sys.client, Register(id)), calls := sys.calls[id := op])
    case Write(id) =>
      sys.(sentIds := sys.sentIds + [id], up := sys.up + [w.request(sys.calls[id], id).value])
    case ServeNext(fault) => DoServe(w, sys, fault)
    case ReceiveNext(data) => DoReceive(w, sys, data)
    case GiveUp(id) => sys.(client := Step(sys.client, Withdraw(id)))
    case TakeReply(ch) => sys.(client := Step(sys.client, Take(ch)))
    case Close(data) => sys.(client := Step(sys.client, Shutdown(data)), closing := Some(data))
  }

  // -- the invariant

  predicate RequestIs(w: Wire, calls: map<Id, Op>, id: Id, msg: Bytes) {
    id in calls && w.request(calls[id], id) == Some(msg)
  }

  /** What was written to the server, one message for each request. */
  predicate RequestsOk(w: Wire, calls: map<Id, Op>, sentIds: seq<Id>, up: seq<Bytes>) {
    && |up| == |sentIds|
    && (forall i, j | 0 <= i < j < |sentIds| :: sentIds[i] != sentIds[j])
    && (forall i | 0 <= i < |sentIds| :: RequestIs(w, calls, sentIds[i], up[i]))
  }

  predicate CallsOk(c: Client, calls: map<Id, Op>) {
    forall id | id in calls :: id <= c.count && id !in c.given
  }

  predicate ServedOk(w: Wire, msg: Bytes, s: Store, fault: Option<Fault>, after: Store) {
    w.serve(msg, s, fault).store == after
  }

  predicate RepliedOk(w: Wire, msg: Bytes, s: Store, fault: Option<Fault>, reply: Bytes) {
    w.serve(msg, s, fault).reply == Some(reply)
  }

  /** What the server did with the requests it has handled. */
  predicate ServerOk(w: Wire, sys: System) {
    && |sys.stores| == |sys.faults| + 1
    && |sys.down| <= |sys.faults| <= |sys.up|
    && (sys.open ==> |sys.down| == |sys.faults|)
    && (forall i | 0 <= i < |sys.faults| ::
          ServedOk(w, sys.up[i], sys.stores[i], sys.faults[i], sys.stores[i + 1]))
    && (forall i | 0 <= i < |sys.down| ::
          RepliedOk(w, sys.up[i], sys.stores[i], sys.faults[i], sys.down[i]))
  }

  /** The k-th reply the client received is this message, for the request this channel was made for. */
  predicate IsReply(w: Wire, sentIds: seq<Id>, down: seq<Bytes>, received: nat, id: Id, resp: NetRpcResp, k: nat) {
    && k < received && k < |sentIds| && k < |down|
    && sentIds[k] == id
    && w.reply(down[k]) == Some(resp)
  }

  ghost predicate Replied(w: Wire, sentIds: seq<Id>, down: seq<Bytes>, received: nat, id: Id, resp: NetRpcResp) {
    exists k: nat :: IsReply(w, sentIds, down, received, id, resp, k)
  }

  /** Every message in a channel is a reply of the server to that very request, or says the store closed. */
  ghost predicate OriginOk(w: Wire, sys: System, ch: Chan) {
    ch.sent != [] ==>
      || (sys.closing.Some? && ch.sent[0] == CloseMsg(ch.id, sys.closing.value))
      || Replied(w, sys.sentIds, sys.down, sys.received, ch.id, ch.sent[0].resp)
  }

  ghost predicate OriginsOk(w: Wire, sys: System) {
    forall i | 0 <= i < |sys.client.chans| :: OriginOk(w, sys, sys.client.chans[i])
  }

  ghost predicate SysInv(w: Wire, sys: System) {
    && Inv(sys.client)
    && CallsOk(sys.client, sys.calls)
    && RequestsOk(w, sys.calls, sys.sentIds, sys.up)
    && ServerOk(w, sys)
    && sys.received <= |sys.down|
    && (sys.closing.Some? <==> sys.client.respMap.None?)
    && OriginsOk(w, sys)
  }

  // -- each action keeps it

  /** Steps that only move the client along, without sending anything. */
  lemma QuietKeepsOrigins(w: Wire, sys: System, after: System)
    requires OriginsOk(w, sys)
    requires after.sentIds == sys.sentIds && after.down == sys.down && after.received == sys.received
    requires after.closing == sys.closing
    requires |sys.client.chans| <= |after.client.chans|
    requires forall i | 0 <= i < |sys.client.chans| ::
               after.client.chans[i].id == sys.client.chans[i].id
               && after.client.chans[i].sent == sys.client.chans[i].sent
    requires forall i | |sys.client.chans| <= i < |after.client.chans| :: after.client.chans[i].sent == []
    ensures OriginsOk(w, after)
  {
    forall i | 0 <= i < |after.client.chans|
      ensures OriginOk(w, after, after.client.chans[i])
    {
      if i < |sys.client.chans| {
        assert OriginOk(w, sys, sys.client.chans[i]);
      }
    }
  }

  lemma ClientStepKeeps(w: Wire, sys: System, e: Event)
    requires SysInv(w, sys) && Enabled(sys.client, e) && (e.Alloc? || e.Withdraw? || e.Take?)
    ensures SysInv(w, sys.(client := Step(sys.client, e)))
  {
    StepKeeps(sys.client, e);
    QuietKeepsOrigins(w, sys, sys.(client := Step(sys.client, e)));
  }

  lemma BeginKeeps(w: Wire, sys: System, id: Id, op: Op)
    requires SysInv(w, sys) && Can(w, sys, Begin(id, op))
    ensures SysInv(w, Do(w, sys, Begin(id, op)))
  {
    var after := Do(w, sys, Begin(id, op));
    StepKeeps(sys.client, Register(id));
    QuietKeepsOrigins(w, sys, after);
    forall i | 0 <= i < |sys.sentIds|
      ensures RequestIs(w, after.calls, sys.sentIds[i], sys.up[i])
    {
      assert RequestIs(w, sys.calls, sys.sentIds[i], sys.up[i]);
    }
  }

  lemma RepliedLater(w: Wire, sentIds: seq<Id>, down: seq<Bytes>, received: nat,
                     more: seq<Id>, downMore: seq<Bytes>, later: nat, id: Id, resp: NetRpcResp)
    requires Replied(w, sentIds, down, received, id, resp) && received <= later
    ensures Replied(w, sentIds + more, down + downMore, later, id, resp)
  {
    var k: nat :| IsReply(w, sentIds, down, received, id, resp, k);
    assert IsReply(w, sentIds + more, down + downMore, later, id, resp, k);
  }

  lemma OriginsLater(w: Wire, sys: System, after: System, more: seq<Id>, downMore: seq<Bytes>)
    requires OriginsOk(w, sys) && after.client == sys.client && after.closing == sys.closing
    requires after.sentIds == sys.sentIds + more && after.down == sys.down + downMore && after.received == sys.received
    ensures OriginsOk(w, after)
  {
    forall i | 0 <= i < |after.client.chans|
      ensures OriginOk(w, after, after.client.chans[i])
    {
      var ch := sys.client.chans[i];
      assert OriginOk(w, sys, ch);
      if ch.sent != [] && Replied(w, sys.sentIds, sys.down, sys.received, ch.id, ch.sent[0].resp) {
        RepliedLater(w, sys.sentIds, sys.down, sys.received, more, downMore, sys.received, ch.id, ch.sent[0].resp);
      }
    }
  }

  lemma WriteKeeps(w: Wire, sys: System, id: Id)
    requires SysInv(w, sys) && Can(w, sys, Write(id))
    ensures SysInv(w, Do(w, sys, Write(id)))
  {
    var after := Do(w, sys, Write(id));
    OriginsLater(w, sys, after, [id], []);
    forall i | 0 <= i < |after.sentIds|
      ensures RequestIs(w, after.calls, after.sentIds[i], after.up[i])
    {
      if i < |sys.sentIds| {
        assert RequestIs(w, sys.calls, sys.sentIds[i], sys.up[i]);
      }
    }
    assert forall i | 0 <= i < |sys.up| :: after.up[i] == sys.up[i];
    WriteKeepsServer(w, sys, after);
  }

  lemma WriteKeepsServer(w: Wire, sys: System, after: System)
    requires ServerOk(w, sys) && |sys.up| <= |after.up|
    requires forall i | 0 <= i < |sys.up| :: after.up[i] == sys.up[i]
    requires after.stores == sys.stores && after.faults == sys.faults
    requires after.down == sys.down && after.open == sys.open
    ensures ServerOk(w, after)
  {
    forall i | 0 <= i < |after.faults|
      ensures ServedOk(w, after.up[i], after.stores[i], after.faults[i], after.stores[i + 1])
    {
      assert ServedOk(w, sys.up[i], sys.stores[i], sys.faults[i], sys.stores[i + 1]);
    }
    forall i | 0 <= i < |after.down|
      ensures RepliedOk(w, after.up[i], after.stores[i], after.faults[i], after.down[i])
    {
      assert RepliedOk(w, sys.up[i], sys.stores[i], sys.faults[i], sys.down[i]);
    }
  }

  lemma ServeKeepsServer(w: Wire, sys: System, fault: Option<Fault>)
    requires Echoes(w) && ServerOk(w, sys) && Can(w, sys, ServeNext(fault))
    ensures ServerOk(w, DoServe(w, sys, fault))
    ensures sys.down <= DoServe(w, sys, fault).down
  {
    var after := DoServe(w, sys, fault);
    forall i | 0 <= i < |after.faults|
      ensures ServedOk(w, after.up[i], after.stores[i], after.faults[i], after.stores[i + 1])
    {
      if i < |sys.faults| {
        assert ServedOk(w, sys.up[i], sys.stores[i], sys.faults[i], sys.stores[i + 1]);
        assert after.stores[i] == sys.stores[i] && after.stores[i + 1] == sys.stores[i + 1];
      }
    }
    forall i | 0 <= i < |after.down|
      ensures RepliedOk(w, after.up[i], after.stores[i], after.faults[i], after.down[i])
    {
      if i < |sys.down| {
        assert RepliedOk(w, sys.up[i], sys.stores[i], sys.faults[i], sys.down[i]);
      }
    }
  }

  lemma ServeKeeps(w: Wire, sys: System, fault: Option<Fault>)
    requires Echoes(w) && SysInv(w, sys) && Can(w, sys, ServeNext(fault))
    ensures SysInv(w, Do(w, sys, ServeNext(fault)))
  {
    var after := DoServe(w, sys, fault);
    ServeKeepsServer(w, sys, fault);
    assert after.sentIds == sys.sentIds + [];
    assert after.down == sys.down + after.down[|sys.down|..];
    OriginsLater(w, sys, after, [], after.down[|sys.down|..]);
  }

  lemma DeliverKeepsOrigins(w: Wire, sys: System, after: System, resp: NetRpcResp)
    requires Inv(sys.client) && Enabled(sys.client, Deliver(resp)) && OriginsOk(w, sys)
    requires after == sys.(client := Step(sys.client, Deliver(resp)), received := sys.received + 1)
    requires IsReply(w, sys.sentIds, sys.down, sys.received + 1, resp.id, resp, sys.received)
    ensures OriginsOk(w, after)
  {
    forall i | 0 <= i < |after.client.chans|
      ensures OriginOk(w, after, after.client.chans[i])
    {
      DeliverSends(sys.client, resp, i);
      if i < |sys.client.chans| {
        var ch := sys.client.chans[i];
        assert OriginOk(w, sys, ch);
        if ch.sent != [] && Replied(w, sys.sentIds, sys.down, sys.received, ch.id, ch.sent[0].resp) {
          assert sys.sentIds + [] == sys.sentIds && sys.down + [] == sys.down;
          RepliedLater(w, sys.sentIds, sys.down, sys.received, [], [], sys.received + 1, ch.id, ch.sent[0].resp);
        }
      }
    }
  }

  lemma ReceiveKeeps(w: Wire, sys: System, data: Bytes)
    requires Echoes(w) && SysInv(w, sys) && Can(w, sys, ReceiveNext(data))
    ensures SysInv(w, Do(w, sys, ReceiveNext(data)))
    ensures w.reply(sys.down[sys.received]).Some?
  {
    var k := sys.received;
    assert RepliedOk(w, sys.up[k], sys.stores[k], sys.faults[k], sys.down[k]);
    assert RequestIs(w, sys.calls, sys.sentIds[k], sys.up[k]);
    assert EchoesId(w, sys.down[k], sys.sentIds[k]);
    var resp := w.reply(sys.down[k]).value;
    StepKeeps(sys.client, Deliver(resp));
    var after := DoReceive(w, sys, data);
    DeliverKeepsOrigins(w, sys, after, resp);
    WriteKeepsServer(w, sys, after);
  }

  lemma CloseKeeps(w: Wire, sys: System, data: Bytes)
    requires SysInv(w, sys) && Can(w, sys, Close(data))
    ensures SysInv(w, Do(w, sys, Close(data)))
  {
    var after := Do(w, sys, Close(data));
    StepKeeps(sys.client, Shutdown(data));
    forall i | 0 <= i < |after.client.chans|
      ensures OriginOk(w, after, after.client.chans[i])
    {
      assert OriginOk(w, sys, sys.client.chans[i]);
      ShutdownSends(sys.client, data, i);
    }
    WriteKeepsServer(w, sys, after);
  }

  lemma DoKeeps(w: Wire, sys: System, a: Action)
    requires Echoes(w) && SysInv(w, sys) && Can(w, sys, a)
    ensures SysInv(w, Do(w, sys, a))
  {
    match a
    case NewId => ClientStepKeeps(w, sys, Alloc);
    case Begin(id, op) => BeginKeeps(w, sys, id, op);
    case Write(id) => WriteKeeps(w, sys, id);
    case ServeNext(fault) => ServeKeeps(w, sys, fault);
    case ReceiveNext(data) => ReceiveKeeps(w, sys, data);
    case GiveUp(id) => ClientStepKeeps(w, sys, Withdraw(id));
    case TakeReply(ch) => ClientStepKeeps(w, sys, Take(ch));
    case Close(data) => CloseKeeps(w, sys, data);
  }

  // -- runs

  predicate Next(w: Wire, sys: System, a: Action, after: System) {
    Can(w, sys, a) && after == Do(w, sys, a)
  }

  function NextOf(w: Wire): (System, Action, System) -> bool {
    (sys, a, after) => Next(w, sys, a, after)
  }

  ghost predicate SysRun(w: Wire, s: Store, ss: seq<System>, acts: seq<Action>) {
    RunOf(NextOf(w), Initial(s), acts, ss)
  }

  lemma SysRunNext(w: Wire, s: Store, ss: seq<System>, acts: seq<Action>, i: nat)
    requires SysRun(w, s, ss, acts) && i < |acts|
    ensures |ss| == |acts| + 1 && Next(w, ss[i], acts[i], ss[i + 1])
  {
    RunStep(NextOf(w), Initial(s), acts, ss, i);
  }

  lemma {:induction false} SysRunsAreSafe(w: Wire, s: Store, ss: seq<System>, acts: seq<Action>, n: nat)
    requires Echoes(w) && SysRun(w, s, ss, acts) && n < |ss|
    ensures SysInv(w, ss[n])
  {
    if n > 0 {
      SysRunsAreSafe(w, s, ss, acts, n - 1);
      SysRunNext(w, s, ss, acts, n - 1);
      DoKeeps(w, ss[n - 1], acts[n - 1]);
    }
  }

  /** What has happened stays: requests written, stores and replies are only ever added to. */
  predicate Later(before: System, after: System) {
    && before.sentIds <= after.sentIds
    && before.stores <= after.stores
    && before.down <= after.down
    && before.received <= after.received
  }

  lemma DoIsLater(w: Wire, sys: System, a: Action)
    requires Can(w, sys, a)
    ensures Later(sys, Do(w, sys, a))
  {
  }

  lemma {:induction false} RunIsLater(w: Wire, s: Store, ss: seq<System>, acts: seq<Action>, n: nat, m: nat)
    requires SysRun(w, s, ss, acts) && n <= m < |ss|
    ensures Later(ss[n], ss[m])
    decreases m
  {
    if n < m {
      RunIsLater(w, s, ss, acts, n, m - 1);
      SysRunNext(w, s, ss, acts, m - 1);
      DoIsLater(w, ss[m - 1], acts[m - 1]);
    }
  }

  /** A request written after another's reply arrived is handled after it: the server's order agrees with real time. */
  lemma RealTimeOrder(w: Wire, s: Store, ss: seq<System>, acts: seq<Action>, n: nat, m: nat, j: nat, k: nat)
    requires Echoes(w) && SysRun(w, s, ss, acts) && n <= m < |ss|
    requires j < ss[n].received && k < |ss[m].sentIds| && ss[m].sentIds[k] !in ss[n].sentIds
    ensures j < |ss[n].sentIds| && j < k && ss[m].sentIds[j] == ss[n].sentIds[j]
  {
    SysRunsAreSafe(w, s, ss, acts, n);
    RunIsLater(w, s, ss, acts, n, m);
  }

  /** Whatever a caller was handed is a reply to its own request, unless the store closed. */
  lemma MessagesAreReplies(w: Wire, s: Store, ss: seq<System>, acts: seq<Action>, n: nat, i: nat)
    requires Echoes(w) && SysRun(w, s, ss, acts) && n < |ss|
    requires i < |ss[n].client.chans| && ss[n].client.chans[i].sent != []
    ensures SysInv(w, ss[n]) && ss[n].stores[0] == s
    ensures var sys, ch := ss[n], ss[n].client.chans[i];
            (sys.closing.Some? && ch.sent[0] == CloseMsg(ch.id, sys.closing.value))
            || Replied(w, sys.sentIds, sys.down, sys.received, ch.id, ch.sent[0].resp)
  {
    SysRunsAreSafe(w, s, ss, acts, n);
    RunIsLater(w, s, ss, acts, 0, n);
    assert OriginOk(w, ss[n], ss[n].client.chans[i]);
  }
}
