/** A whole flush on the fields, and that the steps of the model come to it when nothing comes in between. */
module AutobatchFlush {
  import opened Outcomes
  import opened Autobatch
  import opened AutobatchSafety
  import opened Runs

  /** A write of n blocks gives up before its end. */
  predicate GivesUp(stop: Option<nat>, n: nat) {
    stop.Some? && stop.value < n
  }

  /** The backing store with the first n blocks of the list written. */
  function Written(list: seq<Blk>, backing: map<Cid, Blk>, n: nat): map<Cid, Blk>
    requires n <= |list|
  {
    if n == 0 then backing else Written(list, backing, n - 1)[list[n - 1].cid := list[n - 1]]
  }

  lemma {:induction false} WrittenIsStored(list: seq<Blk>, backing: map<Cid, Blk>, n: nat)
    requires n <= |list|
    ensures Stored(list[..n], Written(list, backing, n)) && backing.Keys <= Written(list, backing, n).Keys
  {
    if n > 0 {
      WrittenIsStored(list, backing, n - 1);
      assert list[..n] == list[..n - 1] + [list[n - 1]];
    }
  }

  /** A PutMany of the batch in flight that gives up after `stop` blocks, if that is before its end. */
  function WriteSection(sh: Shared, stop: Option<nat>): Shared {
    var list := sh.flushing.blockList;
    var n := if GivesUp(stop, |list|) then stop.value else |list|;
    sh.(backing := Written(list, sh.backing, n), flushErr := GivesUp(stop, |list|))
  }

  /** The second half of a flush: take the buffer, write it, and let go of it if that went well. */
  function TakeAndWrite(sh: Shared, stop: Option<nat>): Shared {
    var r := WriteSection(TakeSection(sh), stop);
    if r.flushErr then r else r.(flushing := EMPTY)
  }

  /** A whole flush: retry what failed before; then, unless that is all or has failed again, flush the buffer. */
  function FlushSections(sh: Shared, retryOnly: bool, retry: Option<nat>, flush: Option<nat>): Shared {
    var r := if sh.flushErr then WriteSection(sh, retry) else sh;
    if retryOnly || r.flushErr then r else TakeAndWrite(r, flush)
  }

  // -- the steps of the model

  predicate OfFlush(e: Event) {
    !e.Put? && !IsGet(e) && !e.Wake?
  }

  /** A run of flush steps alone. */
  ghost predicate FlushRun(capacity: nat, s: State, es: seq<Event>, ss: seq<State>, t: State) {
    RunOf(NextOf(capacity), s, es, ss) && ss[|es|] == t && forall e | e in es :: OfFlush(e)
  }

  ghost predicate Leads(capacity: nat, s: State, t: State) {
    exists es, ss :: FlushRun(capacity, s, es, ss, t)
  }

  lemma LeadsNowhere(capacity: nat, s: State)
    ensures Leads(capacity, s, s)
  {
    assert FlushRun(capacity, s, [], [s], s);
  }

  lemma LeadsOn(capacity: nat, s: State, t: State, e: Event)
    requires Leads(capacity, s, t) && OfFlush(e) && Enabled(t, e)
    ensures Leads(capacity, s, Step(t, e, capacity))
  {
    var es, ss :| FlushRun(capacity, s, es, ss, t);
    RunOn(NextOf(capacity), s, es, ss, e, Step(t, e, capacity));
    assert FlushRun(capacity, s, es + [e], ss + [Step(t, e, capacity)], Step(t, e, capacity));
  }

  /** The state with the first n blocks of the batch in flight written. */
  function Writing(s: State, n: nat): State
    requires n <= |s.sh.flushing.blockList|
  {
    s.(sh := s.sh.(backing := Written(s.sh.flushing.blockList, s.sh.backing, n)))
  }

  lemma {:induction false} LeadsWriting(capacity: nat, s: State, t: State, n: nat)
    requires Leads(capacity, s, t) && n <= |t.sh.flushing.blockList|
    requires t.flusher.Holds? && (t.flusher.pc == AtRetry || t.flusher.pc == AtPut)
    ensures Leads(capacity, s, Writing(t, n))
  {
    if n == 0 {
      assert Writing(t, 0) == t;
    } else {
      LeadsWriting(capacity, s, t, n - 1);
      LeadsOn(capacity, s, Writing(t, n - 1), StoreOne(n - 1));
    }
  }

  /** As many blocks as the write gets to, after which it may return. */
  function WriteUpTo(s: State, stop: Option<nat>): State {
    var n := |s.sh.flushing.blockList|;
    Writing(s, if GivesUp(stop, n) then stop.value else n)
  }

  lemma WriteReturns(capacity: nat, s: State, t: State, stop: Option<nat>)
    requires Leads(capacity, s, t) && t.flusher.Holds? && (t.flusher.pc == AtRetry || t.flusher.pc == AtPut)
    ensures var r, list := WriteUpTo(t, stop), t.sh.flushing.blockList;
            && Leads(capacity, s, r) && WriteSection(t.sh, stop) == r.sh.(flushErr := GivesUp(stop, |list|))
            && (!GivesUp(stop, |list|) ==> Stored(list, r.sh.backing))
  {
    var list := t.sh.flushing.blockList;
    LeadsWriting(capacity, s, t, if GivesUp(stop, |list|) then stop.value else |list|);
    WrittenIsStored(list, t.sh.backing, |list|);
    assert list[..|list|] == list;
  }

  /** The call of thread t has ended well or not, as the error now kept says. */
  ghost predicate Returned(s: State, t: Thread) {
    s.flusher == Nobody && t in s.flushes && s.flushes[t].result == Some(!s.sh.flushErr)
  }

  /** The retry of what failed before ends the flush, or leaves it about to take the buffer. */
  lemma RetryLeads(capacity: nat, s: State, u: State, t: Thread, retry: Option<nat>) returns (r: State)
    requires Leads(capacity, s, u) && u.flusher == Holds(t, AtRetry) && t in u.flushes
    ensures Leads(capacity, s, r) && r.sh == WriteSection(u.sh, retry)
    ensures if u.flushes[t].retryOnly || r.sh.flushErr then Returned(r, t)
            else r.flusher == Holds(t, AtTake) && r.flushes == u.flushes
  {
    WriteReturns(capacity, s, u, retry);
    var v := WriteUpTo(u, retry);
    var e := RetryReturns(!GivesUp(retry, |u.sh.flushing.blockList|));
    LeadsOn(capacity, s, v, e);
    r := Step(v, e, capacity);
  }

  lemma PutLeads(capacity: nat, s: State, u: State, t: Thread, flush: Option<nat>) returns (r: State)
    requires Leads(capacity, s, u) && u.flusher == Holds(t, AtPut) && t in u.flushes
    ensures Leads(capacity, s, r) && r.sh == WriteSection(u.sh, flush)
    ensures if r.sh.flushErr then Returned(r, t) else r.flusher == Holds(t, AtReset) && r.flushes == u.flushes
  {
    WriteReturns(capacity, s, u, flush);
    var v := WriteUpTo(u, flush);
    var e := PutReturns(!GivesUp(flush, |u.sh.flushing.blockList|));
    LeadsOn(capacity, s, v, e);
    r := Step(v, e, capacity);
  }

  /** The rest of a flush that has got to the buffer. */
  lemma TakeLeads(capacity: nat, s: State, u: State, t: Thread, flush: Option<nat>) returns (r: State)
    requires Leads(capacity, s, u) && u.flusher == Holds(t, AtTake) && t in u.flushes
    ensures Leads(capacity, s, r) && r.sh == TakeAndWrite(u.sh, flush) && Returned(r, t)
  {
    LeadsOn(capacity, s, u, TakeBatch);
    r := PutLeads(capacity, s, Step(u, TakeBatch, capacity), t, flush);
    if !r.sh.flushErr {
      LeadsOn(capacity, s, r, ResetBatch);
      r := Step(r, ResetBatch, capacity);
    }
  }

  /** From every state in which nobody flushes, the steps of one flush lead to what the whole flush does to the fields,
      and the call returns an error exactly if one is kept. */
  lemma FlushAlone(capacity: nat, s: State, t: Thread, retryOnly: bool, retry: Option<nat>, flush: Option<nat>)
    returns (r: State)
    requires s.flusher == Nobody && t !in s.flushes
    ensures Leads(capacity, s, r) && r.sh == FlushSections(s.sh, retryOnly, retry, flush) && Returned(r, t)
  {
    LeadsNowhere(capacity, s);
    LeadsOn(capacity, s, s, FlushBegin(t, retryOnly));
    var u := Step(s, FlushBegin(t, retryOnly), capacity);
    LeadsOn(capacity, s, u, FlushLock(t));
    r := Step(u, FlushLock(t), capacity);
    if s.sh.flushErr {
      r := RetryLeads(capacity, s, r, t, retry);
    }
    if !retryOnly && !r.sh.flushErr {
      r := TakeLeads(capacity, s, r, t, flush);
    }
  }
}
