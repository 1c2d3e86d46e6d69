/** The client as the source writes it: an object whose methods change its response map and channels. Each method is
    proved to take the steps of the state machine. */
module NetworkStores {
  import opened Outcomes
  import opened Cbor
  import opened CborStreams
  import opened NetRpc
  import opened NetRpcCodec
  import opened NetServer
  import opened NetClient

  class NetworkStore {
    var reqCount: Id
    var respMap: Option<map<Id, nat>>
    var chans: seq<Chan>
    ghost var given: set<Id>
    ghost var withdrawn: set<Id>

    ghost function State(): Client
      reads this
    {
      Client(reqCount, given, respMap, chans, withdrawn)
    }

    constructor ()
      ensures State() == START && Inv(State())
    {
      reqCount, respMap, chans, given, withdrawn := 0, Some(map[]), [], {}, {};
    }

    /** A send on a channel of capacity one; it would wait if there were no room. */
    method Send(ch: nat, m: Msg)
      requires ch < |chans| && Room(chans[ch]) > 0
      modifies `chans
      ensures chans == old(chans)[ch := Sent(old(chans)[ch], m)]
    {
      chans := chans[ch := Sent(chans[ch], m)];
    }

    method Unregister(id: Id)
      requires Inv(State()) && HasChan(chans, id)
      modifies `respMap, `withdrawn
      ensures State() == Step(old(State()), Withdraw(id)) && Inv(State())
    {
      WithdrawKeeps(State(), id);
      if respMap.Some? {
        respMap := Some(respMap.value - {id});
      }
      withdrawn := withdrawn + {id};
    }

    method NewRequest() returns (id: Id)
      requires Inv(State()) && Enabled(State(), Alloc)
      modifies `reqCount, `given
      ensures State() == Step(old(State()), Alloc) && Inv(State())
      ensures id == old(reqCount) + 1 && id in given
    {
      AllocKeeps(State());
      reqCount := reqCount + 1;
      id := reqCount;
      given := given + {id};
    }

    /** The section under the lock: registers a fresh channel unless the store is closed. */
    method RegisterRequest(id: Id) returns (ch: Option<nat>)
      requires Inv(State()) && id in given
      modifies `respMap, `chans, `given
      ensures State() == Step(old(State()), Register(id)) && Inv(State())
      ensures ch == if old(respMap).None? then None else Some(|old(chans)|)
    {
      RegisterKeeps(State(), id);
      given := given - {id};
      if respMap.None? {
        return None;
      }
      ch := Some(|chans|);
      respMap := Some(respMap.value[id := |chans|]);
      chans := chans + [Chan(id, [], 0)];
    }

    /** Registers a request and writes it. `writeOk` is what the stream says to the write. */
    method SendRpc(op: Op, writeOk: bool) returns (r: Option<(Id, nat)>, written: Option<Bytes>)
      requires Inv(State()) && Enabled(State(), Alloc)
      modifies this
      ensures Inv(State())
      ensures var id := old(reqCount) + 1;
              var registered := Step(Step(old(State()), Alloc), Register(id));
              var msg := MarshalReq(ReqOf(op, id));
              if old(respMap).None? then r.None? && written.None? && State() == registered
              else if msg.None? || !writeOk then
                r.None? && written.None? && HasChan(registered.chans, id) && State() == Step(registered, Withdraw(id))
              else r == Some((id, |old(chans)|)) && written == msg && State() == registered
    {
      var id := NewRequest();
      var ch := RegisterRequest(id);
      if ch.None? {
        return None, None;
      }
      assert chans[ch.value].id == id;
      var msg := EncodeReq(ReqOf(op, id));
      if msg.None? {
        Unregister(id);
        return None, None;
      }
      if !writeOk {
        Unregister(id);
        return None, None;
      }
      r, written := Some((id, ch.value)), msg;
    }

    /** One turn of the receive loop: hands a reply to the channel registered for it, or shuts down. */
    method ReceiveOne(msg: Bytes, text: Bytes) returns (stop: bool)
      requires Inv(State()) && respMap.Some?
      modifies this
      ensures Inv(State())
      ensures stop <==> UnmarshalResp(msg).Fail?
      ensures !stop ==> Enabled(old(State()), Deliver(UnmarshalResp(msg).value))
                        && State() == Step(old(State()), Deliver(UnmarshalResp(msg).value))
      ensures stop ==> exists data :: State() == Step(old(State()), Shutdown(data))
                                      && (|text| <= MAX_LENGTH ==>
                                            MarshalErr(NetRpcErr(ERR_GENERIC, text, None)) == Some(data))
    {
      var r := new CborReader(msg);
      var resp := UnmarshalRespCBOR(r);
      if resp.None? {
        var data := DoShutdown(text);
        return true;
      }
      HandOut(resp.value);
      stop := false;
    }

    method HandOut(resp: NetRpcResp)
      requires Inv(State()) && respMap.Some?
      modifies `respMap, `chans
      ensures Inv(State())
      ensures Enabled(old(State()), Deliver(resp)) && State() == Step(old(State()), Deliver(resp))
    {
      assert Enabled(State(), Deliver(resp)) by {
        assert Mapped(respMap.value, chans);
      }
      DeliverKeeps(State(), resp);
      ghost var after := Step(State(), Deliver(resp));
      if resp.id in respMap.value {
        var ch := respMap.value[resp.id];
        assert chans[ch].sent == [] && ChanOk(chans[ch]);
        if resp.ty == RESP_MORE {
          var nch := |chans|;
          chans := chans + [Chan(resp.id, [], 0)];
          respMap := Some(respMap.value[resp.id := nch]);
          Send(ch, Msg(resp, Some(nch)));
          assert chans == after.chans;
        } else {
          respMap := Some(respMap.value - {resp.id});
          Send(ch, Msg(resp, None));
        }
      }
      assert State() == after;
    }

    /** Tells every registered caller, in any order, and closes the store. */
    method DoShutdown(text: Bytes) returns (data: Bytes)
      requires Inv(State()) && respMap.Some?
      modifies `respMap, `chans
      ensures State() == Step(old(State()), Shutdown(data)) && Inv(State())
      ensures |text| <= MAX_LENGTH ==> MarshalErr(NetRpcErr(ERR_GENERIC, text, None)) == Some(data)
    {
      var ok;
      ok, data := EncodeErr(NetRpcErr(ERR_GENERIC, text, None));
      ShutdownKeeps(State(), data);
      ghost var start := chans;
      var m := respMap.value;
      var left := m.Keys;
      CloseNone(start, data);
      assert m - left == map[];
      while left != {}
        invariant left <= m.Keys && respMap == Some(m)
        invariant chans == CloseAll(start, m - left, data)
        decreases left
      {
        var id :| id in left;
        CloseOneMore(start, m, left, id, data);
        Send(m[id], CloseMsg(id, data));
        left := left - {id};
      }
      assert m - {} == m;
      respMap := None;
    }

    method Receive(ch: nat) returns (msg: Msg)
      requires Inv(State()) && Enabled(State(), Take(ch))
      modifies `chans
      ensures State() == Step(old(State()), Take(ch)) && Inv(State())
      ensures msg == old(chans)[ch].sent[0] && msg.resp.id == old(chans)[ch].id
    {
      TakeKeeps(State(), ch);
      assert ChanOk(chans[ch]);
      msg := chans[ch].sent[chans[ch].taken];
      chans := chans[ch := chans[ch].(taken := chans[ch].taken + 1)];
    }

    /** Waits for the reply to a call. Cancelled, the caller gives up its registration. */
    method WaitResp(op: Op, id: Id, ch: nat, cancelled: bool) returns (a: Option<Answer>)
      requires Inv(State()) && ch < |chans| && chans[ch].id == id
      requires !cancelled ==> Enabled(State(), Take(ch))
      modifies this
      ensures Inv(State())
      ensures cancelled ==> a.None? && HasChan(old(chans), id) && State() == Step(old(State()), Withdraw(id))
      ensures !cancelled ==> State() == Step(old(State()), Take(ch))
                             && old(chans)[ch].sent[0].resp.id == id
                             && a == Some(Interpret(op, old(chans)[ch].sent[0].resp))
    {
      if cancelled {
        Unregister(id);
        return None;
      }
      var msg := Receive(ch);
      if msg.resp.ty == RESP_ERR {
        var answer := ReadError(msg.resp.data);
        return Some(answer);
      }
      a := Some(Interpret(op, msg.resp));
    }

    static method ReadError(data: Bytes) returns (a: Answer)
      ensures a == ErrorAnswer(data)
    {
      var r := new CborReader(data);
      var e := UnmarshalErrCBOR(r);
      if e.None? {
        return BadReply;
      }
      if e.value.ty == ERR_NOT_FOUND && e.value.cid.Some? {
        return NotFound(e.value.cid.value, e.value.msg);
      }
      a := Refused(e.value.msg);
    }
  }

  lemma CloseNone(chans: seq<Chan>, data: Bytes)
    ensures CloseAll(chans, map[], data) == chans
  {
  }

  /** The next channel told has not been told yet, and has room. */
  lemma CloseOneMore(chans: seq<Chan>, m: map<Id, nat>, left: set<Id>, id: Id, data: Bytes)
    requires Mapped(m, chans) && ChansOk(chans) && left <= m.Keys && id in left
    ensures var now := CloseAll(chans, m - left, data);
            m[id] < |now| && Room(now[m[id]]) > 0
            && CloseAll(chans, m - (left - {id}), data) == now[m[id] := Sent(now[m[id]], CloseMsg(id, data))]
  {
    var now, then_ := CloseAll(chans, m - left, data), CloseAll(chans, m - (left - {id}), data);
    assert chans[m[id]].id == id && ChanOk(chans[m[id]]);
    forall i | 0 <= i < |chans| && i != m[id]
      ensures now[i] == then_[i]
    {
      var x := chans[i].id;
      assert x == id ==> m[x] != i;
    }
  }
}
