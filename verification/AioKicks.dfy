// How long a kick of fs/aio.c can trust the request it has marked: from the
// test-and-set of kick_iocb until some queue_kicked_iocb of that request.
module AioKicks {
  import opened AioContext
  import AioRing

  // ------------------------------------------------------------- further runs

  // more is a run from s that queues no kick of the request and ends with it freed
  ghost predicate Escapes(s: State, id: Id, more: seq<Step>) {
    Runnable(s, more) && QueueKick(id) !in more && id !in After(s, more).reqs
  }

  ghost predicate Leads(s: State, id: Id) {
    exists more :: Escapes(s, id, more)
  }

  lemma Gone(s: State, id: Id)
    requires id !in s.reqs
    ensures Leads(s, id)
  {
    assert Escapes(s, id, []);
  }

  lemma Then(s: State, step: Step, id: Id)
    requires Enabled(s, step) && step != QueueKick(id) && Leads(Apply(s, step), id)
    ensures Leads(s, id)
  {
    hide Enabled; hide Apply;
    var more :| Escapes(Apply(s, step), id, more);
    var all := [step] + more;
    assert all[0] == step && all[1..] == more;
    assert Escapes(s, id, all);
  }

  lemma RingReady(s: State)
    requires Inv(s)
    ensures s.ring.tail < |s.ring.slots| && s.ring.nr > 0
  {
    hide Requests; hide Threads; hide Runners; hide Events; hide Frees; hide LockOk; hide Counts;
  }

  lemma PutRest(s: State, id: Id, q: Req, last: bool)
    ensures PutReq(s, id, q, last).lock == s.lock && PutReq(s, id, q, last).runs == s.runs
  {
  }

  // ------------------------------------------------- a completed request goes

  // nothing is left of the request but references to drop
  ghost predicate Dropping(s: State, id: Id) {
    Inv(s) && s.lock.Free? && (id in s.reqs ==> Submitted(s, id) && id !in s.uncompleted)
  }

  lemma ClosingLeads(s: State, id: Id)
    requires s.lock.Free? && id in s.reqs && s.reqs[id].place == Closing
    ensures Leads(s, id)
  {
    hide Leads;
    assert Enabled(s, FputFree(id)) && id !in Apply(s, FputFree(id)).reqs;
    hide Enabled; hide Apply;
    Gone(Apply(s, FputFree(id)), id);
    Then(s, FputFree(id), id);
  }

  lemma ParkedLeads(s: State, id: Id)
    requires s.lock.Free? && id in s.reqs && s.reqs[id].place != Place.Live
    ensures Leads(s, id)
  {
    hide Leads;
    if s.reqs[id].place == Closing { ClosingLeads(s, id); }
    else {
      ClosingLeads(Apply(s, FputTake(id)), id);
      hide Apply;
      Then(s, FputTake(id), id);
    }
  }

  // s' is s with one reference of the request dropped
  ghost predicate Dropped(s: State, s': State, id: Id)
    requires id in s.reqs
  {
    && s'.lock == s.lock && id !in s'.uncompleted
    && (id in s'.reqs ==> Submitted(s', id) && s'.reqs[id].users == s.reqs[id].users - 1)
  }

  lemma PutDrops(s: State, s0: State, id: Id, q: Req)
    requires Submitted(s, id) && s0.reqs == s.reqs && id !in s0.uncompleted && s0.lock == s.lock
    requires q.users == s.reqs[id].users && (q.submitter == s.reqs[id].submitter || q.submitter == Finished)
    ensures Dropped(s, PutReq(s0, id, q, false), id)
  {
    hide PutReq;
    PutFrame(s0, id, q, false);
    PutRest(s0, id, q, false);
  }

  lemma SubmitterDrops(s: State, id: Id)
    requires Dropping(s, id) && InUse(s, id) && s.reqs[id].submitter == Queueing
    ensures Enabled(s, SubmitPut(id, false)) && Dropped(s, Apply(s, SubmitPut(id, false)), id)
  {
    hide Inv; hide PutReq; hide Dropped;
    PutDrops(s, s, id, s.reqs[id].(submitter := Finished));
  }

  lemma CancelDrops(s: State, id: Id)
    requires Dropping(s, id) && InUse(s, id) && s.reqs[id].cancels > 0
    ensures Enabled(s, CancelPut(id, false)) && Dropped(s, Apply(s, CancelPut(id, false)), id)
  {
    hide Inv; hide PutReq; hide Dropped;
    PutDrops(s, s, id, s.reqs[id].(cancels := s.reqs[id].cancels - 1));
  }

  lemma RunnerDrops(s: State, t: Tid, id: Id)
    requires Dropping(s, id) && InUse(s, id) && t in s.runs && s.runs[t].req == id && s.runs[t].pc.Returned?
    ensures Enabled(s, RunFinish(t, false)) && Dropped(s, Apply(s, RunFinish(t, false)), id)
  {
    hide Inv; hide DoRunFinish; hide Dropped;
    FinishDrops(s, t, id);
  }

  lemma FinishDrops(s: State, t: Tid, id: Id)
    requires Submitted(s, id) && id !in s.uncompleted && t in s.runs && s.runs[t].req == id && s.runs[t].pc.Returned?
    ensures Dropped(s, DoRunFinish(s, t, false), id)
  {
    hide PutReq; hide Dropped;
    var q := s.reqs[id].(runners := s.reqs[id].runners - {t});
    var link := if s.runs[t].pc.o != Again then q.link else if q.kicked then Linked(Context) else Empty;
    PutDrops(s, s.(runs := s.runs - {t}), id, q.(link := link));
  }

  // a thread inside aio_run_iocb for a completed request has returned, or is about to
  // with -EIOCBQUEUED
  lemma RunnerReturned(s: State, t: Tid, id: Id)
    requires Dropping(s, id) && t in s.runs && s.runs[t].req == id
    ensures id in s.reqs && InUse(s, id) && (s.runs[t].pc.Returned? || s.runs[t].pc == Retrying(Queued))
  {
    hide Inv;
    RunHolds(s, t);
  }

  lemma RunnerReturns(s: State, t: Tid, id: Id)
    requires Dropping(s, id) && InUse(s, id) && t in s.runs && s.runs[t].req == id && s.runs[t].pc == Retrying(Queued)
    ensures Enabled(s, RetryReturn(t))
    ensures var s' := Apply(s, RetryReturn(t));
      && s'.lock.Free? && s'.uncompleted == s.uncompleted && s'.reqs == s.reqs && t in s'.runs && s'.runs[t] == Run(id, Returned(Queued))
  {
    hide Inv;
  }

  lemma NextRef(s: State, id: Id)
    requires Dropping(s, id) && InUse(s, id)
    ensures s.reqs[id].users > 0
    ensures s.reqs[id].submitter == Queueing || s.reqs[id].cancels > 0 || s.reqs[id].runners != {}
    ensures forall t | t in s.reqs[id].runners :: t in s.runs && s.runs[t].req == id
  {
    hide Inv; hide Requests;
    ReqHolds(s, id);
    RunnersOf(s, id);
  }

  ghost function Refs(s: State, id: Id): nat {
    if id in s.reqs && s.reqs[id].users > 0 then s.reqs[id].users else 0
  }

  lemma {:induction false} DropLeads(s: State, id: Id)
    requires Dropping(s, id)
    ensures Leads(s, id)
    decreases Refs(s, id), 1
  {
    hide Inv; hide Leads; hide Enabled; hide Apply;
    if id !in s.reqs { Gone(s, id); }
    else if s.reqs[id].place != Place.Live { ParkedLeads(s, id); }
    else {
      NextRef(s, id);
      if s.reqs[id].submitter == Queueing {
        SubmitterDrops(s, id);
        DropOne(s, SubmitPut(id, false), id);
      } else if s.reqs[id].cancels > 0 {
        CancelDrops(s, id);
        DropOne(s, CancelPut(id, false), id);
      } else {
        var t :| t in s.reqs[id].runners;
        RunnerReturned(s, t, id);
        if s.runs[t].pc.Returned? {
          RunnerDrops(s, t, id);
          DropOne(s, RunFinish(t, false), id);
        } else {
          RunnerReturns(s, t, id);
          StepKeeps(s, RetryReturn(t));
          var s1 := Apply(s, RetryReturn(t));
          RunnerDrops(s1, t, id);
          DropOne(s1, RunFinish(t, false), id);
          Then(s, RetryReturn(t), id);
        }
      }
    }
  }

  lemma {:induction false} DropOne(s: State, step: Step, id: Id)
    requires Dropping(s, id) && InUse(s, id) && s.reqs[id].users > 0
    requires Enabled(s, step) && step != QueueKick(id) && Dropped(s, Apply(s, step), id)
    ensures Leads(s, id)
    decreases Refs(s, id), 0
  {
    hide Inv; hide Leads; hide Enabled; hide Apply;
    StepKeeps(s, step);
    DropLeads(Apply(s, step), id);
    Then(s, step, id);
  }

  // ---------------------------------------------------------- a request completes

  lemma CompleteDrops(s: State, who: Who, id: Id, q: Req)
    requires id in s.reqs && Submitted(s, id) && q.submitter == s.reqs[id].submitter
    ensures var s' := Complete(s, who, id, q, false);
      s'.lock == s.lock && id !in s'.uncompleted && (id in s'.reqs ==> Submitted(s', id))
  {
    hide PutReq;
    var s0 := Completer(s, who, id).(uncompleted := s.uncompleted - {id});
    PutFrame(s0, id, q.(handed := false), false);
    PutRest(s0, id, q.(handed := false), false);
  }

  lemma WriteEnabled(s: State, who: Who, id: Id)
    requires Inv(s) && s.lock.Free? && MayComplete(s, who, id)
    ensures Enabled(s, CompleteWrite(who, id, 0, false)) && Submitted(s, id)
    ensures Apply(s, CompleteWrite(who, id, 0, false)) == DoCompleteWrite(s, who, id, 0, false)
  {
    hide Inv; hide DoCompleteWrite;
    RingReady(s);
    ReqHolds(s, id);
    if who.Runner? { RunHolds(s, who.t); }
  }

  // after the first half of aio_complete the request is complete, or its event is stored
  lemma Written(s: State, who: Who, id: Id)
    requires id in s.reqs && Submitted(s, id) && s.lock.Free? && s.ring.tail < |s.ring.slots|
    ensures var s' := DoCompleteWrite(s, who, id, 0, false);
      if s.reqs[id].cancelled then s'.lock.Free? && id !in s'.uncompleted && (id in s'.reqs ==> Submitted(s', id))
      else s'.lock.Held? && s'.lock.req == id && id in s'.reqs && Submitted(s', id)
  {
    hide Complete;
    var q := s.reqs[id].(link := if s.reqs[id].link.Linked? then Empty else s.reqs[id].link);
    CompleteDrops(s.(silent := s.silent + {id}), who, id, q);
  }

  lemma Published(s: State)
    requires Inv(s) && s.lock.Held? && s.lock.req in s.reqs && Submitted(s, s.lock.req)
    ensures Enabled(s, CompletePublish(false))
    ensures var s', id := Apply(s, CompletePublish(false)), s.lock.req;
      s'.lock.Free? && id !in s'.uncompleted && (id in s'.reqs ==> Submitted(s', id))
  {
    hide Inv; hide Complete;
    RingReady(s);
    CompleteDrops(s.(ring := AioRing.Publish(s.ring, s.lock.event), lock := Free), s.lock.who, s.lock.req, s.reqs[s.lock.req]);
  }

  lemma CompleteLeads(s: State, who: Who, id: Id)
    requires Inv(s) && s.lock.Free? && MayComplete(s, who, id)
    ensures Leads(s, id)
  {
    hide Inv; hide Leads; hide Enabled; hide Apply; hide DoCompleteWrite; hide MayComplete;
    WriteEnabled(s, who, id);
    RingReady(s);
    Written(s, who, id);
    var step := CompleteWrite(who, id, 0, false);
    var s1 := Apply(s, step);
    StepKeeps(s, step);
    if s.reqs[id].cancelled {
      DropLeads(s1, id);
    } else {
      Published(s1);
      StepKeeps(s1, CompletePublish(false));
      DropLeads(Apply(s1, CompletePublish(false)), id);
      Then(s1, CompletePublish(false), id);
    }
    Then(s, step, id);
  }

  // ------------------------------------------------------------- a request is run

  // the retry under way can end in a result
  predicate Finishing(pc: Pc) {
    pc.Unlocked? || pc.Doomed? || pc.Completing? || pc == Retrying(Final)
  }

  lemma EndingLeads(s: State, t: Tid, id: Id)
    requires Inv(s) && s.lock.Free? && t in s.runs && s.runs[t].req == id && (s.runs[t].pc.Doomed? || s.runs[t].pc.Completing?)
    ensures Leads(s, id)
  {
    hide Inv; hide Leads;
    RunHolds(s, t);
    CompleteLeads(s, Runner(t), id);
  }

  lemma ResultReturned(s: State, t: Tid, id: Id)
    requires t in s.runs && s.runs[t] == Run(id, Retrying(Final)) && id in s.reqs
    ensures Enabled(s, RetryReturn(t))
    ensures var s' := Apply(s, RetryReturn(t)); s'.lock == s.lock && t in s'.runs && s'.runs[t] == Run(id, Completing)
  {
  }

  lemma RetryBegun(s: State, t: Tid, id: Id)
    requires t in s.runs && s.runs[t] == Run(id, Unlocked) && id in s.reqs
    ensures Enabled(s, BeginRetry(t, Final))
    ensures var s' := Apply(s, BeginRetry(t, Final));
      s'.lock == s.lock && t in s'.runs && (s'.runs[t] == Run(id, Doomed) || s'.runs[t] == Run(id, Retrying(Final)))
  {
  }

  lemma ResultLeads(s: State, t: Tid, id: Id)
    requires Inv(s) && s.lock.Free? && t in s.runs && s.runs[t] == Run(id, Retrying(Final))
    ensures Leads(s, id)
  {
    hide Inv; hide Leads; hide Enabled; hide Apply;
    RunHolds(s, t);
    ResultReturned(s, t, id);
    StepKeeps(s, RetryReturn(t));
    EndingLeads(Apply(s, RetryReturn(t)), t, id);
    Then(s, RetryReturn(t), id);
  }

  lemma FinishingLeads(s: State, t: Tid, id: Id)
    requires Inv(s) && s.lock.Free? && t in s.runs && s.runs[t].req == id && Finishing(s.runs[t].pc)
    ensures Leads(s, id)
  {
    hide Inv; hide Leads; hide Enabled; hide Apply;
    match s.runs[t].pc
    case Unlocked =>
      RunHolds(s, t);
      RetryBegun(s, t, id);
      var s1 := Apply(s, BeginRetry(t, Final));
      StepKeeps(s, BeginRetry(t, Final));
      if s1.runs[t].pc.Doomed? { EndingLeads(s1, t, id); } else { ResultLeads(s1, t, id); }
      Then(s, BeginRetry(t, Final), id);
    case Retrying(_) => ResultLeads(s, t, id);
    case Doomed => EndingLeads(s, t, id);
    case Completing => EndingLeads(s, t, id);
  }

  // on the private list of thread u, below the retry limit
  ghost predicate Waits(s: State, u: Tid, id: Id) {
    && Inv(s) && s.lock.Free? && InUse(s, id) && s.reqs[id].link == Linked(Private(u)) && s.reqs[id].retried <= MAX_RETRIES
  }

  lemma RunStarted(s: State, u: Tid, id: Id)
    requires s.lock.Free? && u !in s.runs && InUse(s, id) && s.reqs[id].link == Linked(Private(u)) && s.reqs[id].retried <= MAX_RETRIES
    ensures Enabled(s, RunStart(u, id, false))
    ensures var s' := Apply(s, RunStart(u, id, false)); s'.lock == s.lock && u in s'.runs && s'.runs[u] == Run(id, Unlocked)
  {
  }

  lemma StartLeads(s: State, u: Tid, id: Id)
    requires Waits(s, u, id) && u !in s.runs
    ensures Leads(s, id)
  {
    hide Inv; hide Leads; hide Enabled; hide Apply;
    RunStarted(s, u, id);
    StepKeeps(s, RunStart(u, id, false));
    FinishingLeads(Apply(s, RunStart(u, id, false)), u, id);
    Then(s, RunStart(u, id, false), id);
  }

  lemma NewThread(runs: map<Tid, Run>) returns (t: Tid)
    ensures t !in runs
  {
    t := Above(runs.Keys);
    assert t !in runs.Keys;
  }

  lemma {:induction false} Above(ids: set<Tid>) returns (b: Tid)
    ensures forall t | t in ids :: t < b
  {
    if ids == {} {
      b := 0;
    } else {
      var x :| x in ids;
      var c := Above(ids - {x});
      b := if x < c then c else x + 1;
      forall t | t in ids
        ensures t < b
      {
        if t != x { assert t in ids - {x}; }
      }
    }
  }

  lemma Spliced(s: State, t: Tid, id: Id)
    requires s.lock.Free? && t !in s.runs && InUse(s, id) && s.reqs[id].link == Linked(Context) && s.reqs[id].retried <= MAX_RETRIES
    ensures Enabled(s, Splice(t))
    ensures var s' := Apply(s, Splice(t));
      && s'.lock == s.lock && t !in s'.runs && InUse(s', id) && s'.reqs[id].link == Linked(Private(t))
      && s'.reqs[id].retried <= MAX_RETRIES
  {
  }

  lemma QueuedLeads(s: State, id: Id)
    requires Inv(s) && s.lock.Free? && InUse(s, id) && s.reqs[id].link == Linked(Context) && s.reqs[id].retried <= MAX_RETRIES
    ensures Leads(s, id)
  {
    hide Inv; hide Leads; hide Enabled; hide Apply;
    var t := NewThread(s.runs);
    Spliced(s, t, id);
    StepKeeps(s, Splice(t));
    StartLeads(Apply(s, Splice(t)), t, id);
    Then(s, Splice(t), id);
  }

  // --------------------------------- the thread of the private list is busy elsewhere

  // the request is as it was
  ghost predicate Beside(s: State, s': State, id: Id) {
    s'.lock == s.lock && id in s.reqs && id in s'.reqs && s'.reqs[id] == s.reqs[id]
  }

  lemma PutBeside(s: State, s0: State, k: Id, q: Req, id: Id)
    requires id in s.reqs && k != id && s0.reqs == s.reqs && s0.lock == s.lock
    ensures var s' := PutReq(s0, k, q, false); Beside(s, s', id) && s'.runs == s0.runs
  {
    hide PutReq;
    PutFrame(s0, k, q, false);
    PutRest(s0, k, q, false);
  }

  lemma OtherFinished(s: State, u: Tid, id: Id)
    requires s.lock.Free? && u in s.runs && s.runs[u].pc.Returned? && s.runs[u].req in s.reqs && s.runs[u].req != id && id in s.reqs
    ensures Enabled(s, RunFinish(u, false))
    ensures Beside(s, Apply(s, RunFinish(u, false)), id) && u !in Apply(s, RunFinish(u, false)).runs
  {
    hide DoRunFinish; hide Beside;
    FinishBeside(s, u, id);
  }

  lemma FinishBeside(s: State, u: Tid, id: Id)
    requires u in s.runs && s.runs[u].pc.Returned? && s.runs[u].req in s.reqs && s.runs[u].req != id && id in s.reqs
    ensures Beside(s, DoRunFinish(s, u, false), id) && u !in DoRunFinish(s, u, false).runs
  {
    hide PutReq; hide Beside;
    var k := s.runs[u].req;
    var q := s.reqs[k].(runners := s.reqs[k].runners - {u});
    var link := if s.runs[u].pc.o != Again then q.link else if q.kicked then Linked(Context) else Empty;
    PutBeside(s, s.(runs := s.runs - {u}), k, q.(link := link), id);
  }

  lemma OtherReturned(s: State, u: Tid, id: Id)
    requires u in s.runs && s.runs[u].pc.Retrying? && s.runs[u].req in s.reqs && s.runs[u].req != id && id in s.reqs
    ensures Enabled(s, RetryReturn(u))
    ensures var s' := Apply(s, RetryReturn(u));
      Beside(s, s', id) && u in s'.runs && s'.runs[u].req == s.runs[u].req && (s'.runs[u].pc.Completing? || s'.runs[u].pc.Returned?)
  {
  }

  lemma OtherBegun(s: State, u: Tid, id: Id)
    requires u in s.runs && s.runs[u].pc.Unlocked? && s.runs[u].req in s.reqs && s.runs[u].req != id && id in s.reqs
    ensures Enabled(s, BeginRetry(u, Again))
    ensures var s' := Apply(s, BeginRetry(u, Again));
      Beside(s, s', id) && u in s'.runs && s'.runs[u].req == s.runs[u].req && (s'.runs[u].pc.Doomed? || s'.runs[u].pc.Retrying?)
  {
  }

  lemma CompleteBeside(s: State, u: Tid, k: Id, q: Req, id: Id)
    requires id in s.reqs && k != id
    ensures var s' := Complete(s, Runner(u), k, q, false);
      s'.lock == s.lock && id in s'.reqs && s'.reqs[id] == s.reqs[id] && u in s'.runs && s'.runs[u] == Run(k, Returned(Final))
  {
    hide PutReq;
    var s0 := Completer(s, Runner(u), k).(uncompleted := s.uncompleted - {k});
    PutBeside(s, s0, k, q.(handed := false), id);
  }

  lemma OtherWritten(s: State, u: Tid, k: Id, id: Id)
    requires k in s.reqs && s.lock.Free? && s.ring.tail < |s.ring.slots| && id in s.reqs && k != id
    ensures var s' := DoCompleteWrite(s, Runner(u), k, 0, false);
      && id in s'.reqs && s'.reqs[id] == s.reqs[id]
      && if s.reqs[k].cancelled then s'.lock.Free? && u in s'.runs && s'.runs[u] == Run(k, Returned(Final))
         else s'.lock == Held(Runner(u), k, AioRing.Event(k, 0)) && k in s'.reqs
  {
    hide Complete;
    var q := s.reqs[k].(link := if s.reqs[k].link.Linked? then Empty else s.reqs[k].link);
    CompleteBeside(s.(silent := s.silent + {k}), u, k, q, id);
  }

  lemma OtherPublished(s: State, u: Tid, id: Id)
    requires Inv(s) && s.lock.Held? && s.lock.who == Runner(u) && s.lock.req in s.reqs && s.lock.req != id && id in s.reqs
    ensures Enabled(s, CompletePublish(false))
    ensures var s' := Apply(s, CompletePublish(false));
      s'.lock.Free? && id in s'.reqs && s'.reqs[id] == s.reqs[id] && u in s'.runs && s'.runs[u] == Run(s.lock.req, Returned(Final))
  {
    hide Inv; hide Complete;
    RingReady(s);
    CompleteBeside(s.(ring := AioRing.Publish(s.ring, s.lock.event), lock := Free), u, s.lock.req, s.reqs[s.lock.req], id);
  }

  lemma NotItsOwn(s: State, u: Tid, id: Id)
    requires Waits(s, u, id) && u in s.runs
    ensures s.runs[u].req in s.reqs && s.runs[u].req != id
  {
    hide Inv;
    RunHolds(s, u);
    ReqHolds(s, id);
  }

  lemma ReturnedLeads(s: State, u: Tid, id: Id)
    requires Waits(s, u, id) && u in s.runs && s.runs[u].pc.Returned?
    ensures Leads(s, id)
  {
    hide Inv; hide Leads; hide Enabled; hide Apply;
    NotItsOwn(s, u, id);
    OtherFinished(s, u, id);
    StepKeeps(s, RunFinish(u, false));
    StartLeads(Apply(s, RunFinish(u, false)), u, id);
    Then(s, RunFinish(u, false), id);
  }

  lemma OtherEndingLeads(s: State, u: Tid, id: Id)
    requires Waits(s, u, id) && u in s.runs && (s.runs[u].pc.Doomed? || s.runs[u].pc.Completing?)
    ensures Leads(s, id)
  {
    hide Inv; hide Leads; hide Enabled; hide Apply; hide DoCompleteWrite;
    NotItsOwn(s, u, id);
    RunHolds(s, u);
    var k := s.runs[u].req;
    WriteEnabled(s, Runner(u), k);
    RingReady(s);
    OtherWritten(s, u, k, id);
    var step := CompleteWrite(Runner(u), k, 0, false);
    var s1 := Apply(s, step);
    StepKeeps(s, step);
    if s.reqs[k].cancelled {
      ReturnedLeads(s1, u, id);
    } else {
      OtherPublished(s1, u, id);
      StepKeeps(s1, CompletePublish(false));
      ReturnedLeads(Apply(s1, CompletePublish(false)), u, id);
      Then(s1, CompletePublish(false), id);
    }
    Then(s, step, id);
  }

  lemma OtherRetryLeads(s: State, u: Tid, id: Id)
    requires Waits(s, u, id) && u in s.runs && s.runs[u].pc.Retrying?
    ensures Leads(s, id)
  {
    hide Inv; hide Leads; hide Enabled; hide Apply;
    NotItsOwn(s, u, id);
    OtherReturned(s, u, id);
    StepKeeps(s, RetryReturn(u));
    var s1 := Apply(s, RetryReturn(u));
    if s1.runs[u].pc.Returned? { ReturnedLeads(s1, u, id); } else { OtherEndingLeads(s1, u, id); }
    Then(s, RetryReturn(u), id);
  }

  lemma WaitsLeads(s: State, u: Tid, id: Id)
    requires Waits(s, u, id)
    ensures Leads(s, id)
  {
    hide Inv; hide Leads; hide Enabled; hide Apply;
    if u !in s.runs { StartLeads(s, u, id); }
    else {
      match s.runs[u].pc
      case Unlocked =>
        NotItsOwn(s, u, id);
        OtherBegun(s, u, id);
        StepKeeps(s, BeginRetry(u, Again));
        var s1 := Apply(s, BeginRetry(u, Again));
        if s1.runs[u].pc.Doomed? { OtherEndingLeads(s1, u, id); } else { OtherRetryLeads(s1, u, id); }
        Then(s, BeginRetry(u, Again), id);
      case Doomed => OtherEndingLeads(s, u, id);
      case Retrying(_) => OtherRetryLeads(s, u, id);
      case Completing => OtherEndingLeads(s, u, id);
      case Returned(_) => ReturnedLeads(s, u, id);
    }
  }

  // ------------------------------------------------------- kicked while it is run

  lemma AgainReturned(s: State, t: Tid, id: Id)
    requires t in s.runs && s.runs[t] == Run(id, Retrying(Again)) && id in s.reqs && s.reqs[id].kicked
    ensures Enabled(s, RetryReturn(t))
    ensures var s' := Apply(s, RetryReturn(t));
      s'.lock == s.lock && t in s'.runs && s'.runs[t] == Run(id, Returned(Again)) && id in s'.reqs && s'.reqs[id] == s.reqs[id]
  {
  }

  lemma AgainFinished(s: State, t: Tid, id: Id)
    requires t in s.runs && s.runs[t] == Run(id, Returned(Again)) && id in s.reqs && s.reqs[id].kicked && s.reqs[id].users > 1
    ensures var s' := DoRunFinish(s, t, false);
      && s'.lock == s.lock && id in s'.reqs && s'.reqs[id].place == s.reqs[id].place && s'.reqs[id].link == Linked(Context)
      && s'.reqs[id].retried == s.reqs[id].retried
  {
    hide PutReq;
    var s0, q := s.(runs := s.runs - {t}), s.reqs[id].(runners := s.reqs[id].runners - {t}, link := Linked(Context));
    PutFrame(s0, id, q, false);
    PutRest(s0, id, q, false);
  }

  // a kicked request that is being run again has more than the reference of its thread
  lemma MoreUsers(s: State, t: Tid, id: Id)
    requires Inv(s) && t in s.runs && s.runs[t].req == id && id in s.uncompleted
    ensures InUse(s, id) && s.reqs[id].users > 1
  {
    hide Inv;
    RunHolds(s, t);
    ReqHolds(s, id);
  }

  lemma AgainLeads(s: State, t: Tid, id: Id)
    requires Inv(s) && s.lock.Free? && t in s.runs && s.runs[t] == Run(id, Returned(Again)) && id in s.uncompleted
    requires id in s.reqs && s.reqs[id].kicked && s.reqs[id].retried <= MAX_RETRIES
    ensures Leads(s, id)
  {
    hide Inv; hide Leads; hide DoRunFinish;
    MoreUsers(s, t, id);
    AgainFinished(s, t, id);
    StepKeeps(s, RunFinish(t, false));
    QueuedLeads(Apply(s, RunFinish(t, false)), id);
    Then(s, RunFinish(t, false), id);
  }

  lemma RetryAgainLeads(s: State, t: Tid, id: Id)
    requires Inv(s) && s.lock.Free? && t in s.runs && s.runs[t] == Run(id, Retrying(Again)) && id in s.uncompleted
    requires id in s.reqs && s.reqs[id].kicked && s.reqs[id].retried <= MAX_RETRIES
    ensures Leads(s, id)
  {
    hide Inv; hide Leads; hide Enabled; hide Apply;
    AgainReturned(s, t, id);
    StepKeeps(s, RetryReturn(t));
    SameUncompleted(s, t);
    AgainLeads(Apply(s, RetryReturn(t)), t, id);
    Then(s, RetryReturn(t), id);
  }

  lemma SameUncompleted(s: State, t: Tid)
    requires Enabled(s, RetryReturn(t))
    ensures Apply(s, RetryReturn(t)).uncompleted == s.uncompleted
  {
  }

  // --------------------------------------------------- which requests can be freed

  // a thread inside aio_run_iocb for the request may come to complete it
  ghost predicate RunEnds(s: State, id: Id) {
    exists t | t in s.runs :: s.runs[t].req == id && Finishing(s.runs[t].pc)
  }

  // The request is complete, with a driver, being run to a possible end, or on its way
  // to another retry below the limit.
  ghost predicate Releasable(s: State, id: Id) {
    id in s.reqs &&
    var q := s.reqs[id];
    || id !in s.uncompleted || q.handed || RunEnds(s, id)
    || (q.link != Empty && q.link != Capped && q.retried <= MAX_RETRIES)
  }

  // off the lists and not handed over: a thread is at work on it
  lemma AtWork(s: State, id: Id) returns (t: Tid)
    requires Inv(s) && Submitted(s, id) && id in s.uncompleted && !s.reqs[id].handed && s.reqs[id].link == Null
    ensures t in s.runs && s.runs[t].req == id
    ensures Finishing(s.runs[t].pc) || s.runs[t].pc == Retrying(Again) || s.runs[t].pc == Returned(Again)
  {
    hide Inv; hide Requests;
    ReqHolds(s, id);
    t :| t in s.reqs[id].runners;
    RunnersOf(s, id);
    RunHolds(s, t);
  }

  lemma Uncompleted(s: State, id: Id)
    requires Inv(s) && Submitted(s, id) && id in s.uncompleted
    ensures InUse(s, id)
  {
    hide Inv; hide Requests;
    ReqHolds(s, id);
  }

  lemma UnlockedLeads(s: State, id: Id)
    requires Inv(s) && s.lock.Free? && Submitted(s, id) && s.reqs[id].kicked && Releasable(s, id)
    ensures Leads(s, id)
  {
    hide Inv; hide Leads;
    var q := s.reqs[id];
    if id !in s.uncompleted { DropLeads(s, id); }
    else {
      Uncompleted(s, id);
      if q.handed { CompleteLeads(s, Driver, id); }
      else if RunEnds(s, id) {
        var t :| t in s.runs && s.runs[t].req == id && Finishing(s.runs[t].pc);
        FinishingLeads(s, t, id);
      } else if q.link == Linked(Context) { QueuedLeads(s, id); }
      else if q.link.Linked? { WaitsLeads(s, q.link.on.t, id); }
      else {
        var t := AtWork(s, id);
        if s.runs[t].pc == Retrying(Again) { RetryAgainLeads(s, t, id); } else { AgainLeads(s, t, id); }
      }
    }
  }

  // the completion in progress is of another request
  lemma CompleteAside(s: State, who: Who, k: Id, q: Req, id: Id)
    requires id in s.reqs && k != id && (who.Runner? ==> who.t in s.runs && s.runs[who.t].req == k)
    ensures var s' := Complete(s, who, k, q, false);
      && s'.lock == s.lock && id in s'.reqs && s'.reqs[id] == s.reqs[id] && (id in s'.uncompleted <==> id in s.uncompleted)
      && (forall t | t in s.runs && s.runs[t].req == id :: t in s'.runs && s'.runs[t] == s.runs[t])
  {
    hide PutReq;
    var s0 := Completer(s, who, k).(uncompleted := s.uncompleted - {k});
    PutBeside(s, s0, k, q.(handed := false), id);
    PutFrame(s0, k, q.(handed := false), false);
  }

  lemma Unlocks(s: State, id: Id)
    requires Inv(s) && s.lock.Held? && id in s.reqs
    ensures s.lock.req in s.reqs && Submitted(s, s.lock.req) && Enabled(s, CompletePublish(false))
    ensures s.lock.req != id ==>
      var s' := Apply(s, CompletePublish(false));
      && s'.lock.Free? && id in s'.reqs && s'.reqs[id] == s.reqs[id] && (id in s'.uncompleted <==> id in s.uncompleted)
      && (forall t | t in s.runs && s.runs[t].req == id :: t in s'.runs && s'.runs[t] == s.runs[t])
  {
    hide Inv; hide Complete;
    RingReady(s);
    LockHolds(s);
    if s.lock.req != id {
      CompleteAside(s.(ring := AioRing.Publish(s.ring, s.lock.event), lock := Free), s.lock.who, s.lock.req, s.reqs[s.lock.req], id);
    }
  }

  lemma LockHolds(s: State)
    requires Inv(s) && s.lock.Held?
    ensures s.lock.req in s.reqs && Submitted(s, s.lock.req) && MayComplete(s, s.lock.who, s.lock.req)
    ensures s.lock.who.Runner? ==> s.lock.who.t in s.runs && s.runs[s.lock.who.t].req == s.lock.req
  {
    hide Requests; hide Threads; hide Runners; hide Events; hide Frees; hide Room; hide Counts;
    ReqHolds(s, s.lock.req);
    if s.lock.who.Runner? { RunHolds(s, s.lock.who.t); }
  }

  lemma ReleasableLeads(s: State, id: Id)
    requires Inv(s) && Submitted(s, id) && s.reqs[id].kicked && Releasable(s, id)
    ensures Leads(s, id)
  {
    hide Inv; hide Leads; hide Enabled; hide Apply;
    if s.lock.Free? { UnlockedLeads(s, id); }
    else {
      Unlocks(s, id);
      StepKeeps(s, CompletePublish(false));
      var s1 := Apply(s, CompletePublish(false));
      if s.lock.req == id {
        Published(s);
        DropLeads(s1, id);
      } else {
        if RunEnds(s, id) {
          var t :| t in s.runs && s.runs[t].req == id && Finishing(s.runs[t].pc);
          assert t in s1.runs && s1.runs[t].req == id && Finishing(s1.runs[t].pc);
        }
        UnlockedLeads(s1, id);
      }
      Then(s, CompletePublish(false), id);
    }
  }

  // ----------------------------------------------------- which requests cannot

  // an idle, capped or worn-out request
  predicate WornOut(q: Req) {
    q.link == Empty || q.link == Capped || q.retried > MAX_RETRIES
  }

  // what is left of an unreleasable request when the invariant is used on it
  ghost predicate Mired(s: State, id: Id) {
    && Submitted(s, id) && InUse(s, id) && id in s.uncompleted && !s.reqs[id].handed && WornOut(s.reqs[id])
    && (s.lock.Held? ==> s.lock.req != id)
    && (forall t | t in s.runs && s.runs[t].req == id :: s.runs[t].pc == Retrying(Again) || s.runs[t].pc == Returned(Again))
    && (forall t | t in s.runs && s.runs[t].req == id :: s.reqs[id].retried > MAX_RETRIES)
  }

  // what of it has to hold after a step
  ghost predicate Remains(s: State, id: Id) {
    && id in s.uncompleted
    && (id in s.reqs ==> Submitted(s, id) && !s.reqs[id].handed && WornOut(s.reqs[id]))
    && (forall t | t in s.runs && s.runs[t].req == id :: !Finishing(s.runs[t].pc))
  }

  lemma MiredIs(s: State, id: Id)
    requires Inv(s) && Submitted(s, id) && !Releasable(s, id)
    ensures Mired(s, id)
  {
    hide Inv; hide Requests;
    Uncompleted(s, id);
    ReqHolds(s, id);
    if s.lock.Held? { LockHolds(s); }
    forall t | t in s.runs && s.runs[t].req == id
      ensures (s.runs[t].pc == Retrying(Again) || s.runs[t].pc == Returned(Again)) && s.reqs[id].retried > MAX_RETRIES
    {
      RunHolds(s, t);
    }
  }

  lemma RemainsIs(s: State, id: Id)
    requires Inv(s) && Remains(s, id)
    ensures Submitted(s, id) && !Releasable(s, id)
  {
    hide Inv;
    UncompletedAllocated(s, id);
  }

  // a step that is about other requests
  lemma ElseRemains(s: State, s': State, id: Id)
    requires Mired(s, id) && (id in s'.reqs ==> s'.reqs[id] == s.reqs[id]) && id in s'.uncompleted
    requires forall t | t in s'.runs && s'.runs[t].req == id :: t in s.runs && s.runs[t] == s'.runs[t]
    ensures Remains(s', id)
  {
  }

  // a step that replaces the contents of request k
  lemma UpdateRemains(s: State, s': State, k: Id, q: Req, id: Id)
    requires Mired(s, id) && k in s.reqs && s'.reqs == s.reqs[k := q] && id in s'.uncompleted
    requires k == id ==> !q.handed && WornOut(q) && (q.submitter == s.reqs[id].submitter || q.submitter == Finished)
    requires forall t | t in s'.runs && s'.runs[t].req == id :: !Finishing(s'.runs[t].pc)
    ensures Remains(s', id)
  {
  }

  lemma PutRemains(s: State, s0: State, k: Id, q: Req, last: bool, id: Id)
    requires Mired(s, id) && k in s.reqs && s0.reqs == s.reqs && id in s0.uncompleted
    requires k == id ==> !q.handed && WornOut(q) && (q.submitter == s.reqs[id].submitter || q.submitter == Finished)
    requires forall t | t in s0.runs && s0.runs[t].req == id :: !Finishing(s0.runs[t].pc)
    ensures Remains(PutReq(s0, k, q, last), id)
  {
    hide PutReq; hide Mired; hide Finishing;
    PutFrame(s0, k, q, last);
    PutRest(s0, k, q, last);
    MiredParts(s, id);
  }

  lemma MiredParts(s: State, id: Id)
    requires Mired(s, id)
    ensures Submitted(s, id) && !s.reqs[id].handed && WornOut(s.reqs[id]) && id in s.uncompleted
    ensures forall t | t in s.runs && s.runs[t].req == id :: !Finishing(s.runs[t].pc)
  {
  }

  lemma ContextStepRemains(s: State, step: Step, id: Id)
    requires ContextEnabled(s, step) && Mired(s, id) && s.nextId !in s.reqs
    ensures Remains(ContextApply(s, step), id)
  {
    hide DoGetReq; hide DoSplice; hide Remains;
    if step.GetReq? { GetReqRemains(s, id); }
    else if step.Splice? { SpliceRemains(s, step.t, id); }
    else { ElseRemains(s, ContextApply(s, step), id); }
  }

  lemma GetReqRemains(s: State, id: Id)
    requires s.ring.nr > 0 && Mired(s, id) && s.nextId !in s.reqs
    ensures Remains(DoGetReq(s), id)
  {
    hide AioRing.Avail; hide FreshReq;
    ElseRemains(s, DoGetReq(s), id);
  }

  lemma SpliceRemains(s: State, t: Tid, id: Id)
    requires Mired(s, id)
    ensures Remains(DoSplice(s, t), id)
  {
  }

  lemma QuietStepRemains(s: State, step: Step, id: Id)
    requires RequestEnabled(s, step) && Quiet(step) && Mired(s, id) && step != QueueKick(id)
    ensures Remains(RequestApply(s, step), id)
  {
    hide Remains; hide Mired; hide RequestApply; hide RequestEnabled;
    if step.FputFree? {
      FputFreeRemains(s, step, id);
    } else if step.id == id {
      OwnQuietRemains(s, step, id);
    } else {
      OtherQuietRemains(s, step, id);
    }
  }

  lemma FputFreeRemains(s: State, step: Step, id: Id)
    requires RequestEnabled(s, step) && step.FputFree? && Mired(s, id)
    ensures Remains(RequestApply(s, step), id)
  {
    hide Remains; hide WornOut; hide Finishing; hide Mired;
    MiredParts(s, id);
    ElseRemains(s, RequestApply(s, step), id);
  }

  lemma OtherQuietRemains(s: State, step: Step, id: Id)
    requires RequestEnabled(s, step) && Quiet(step) && Mired(s, id) && !step.FputFree? && step.id != id
    ensures Remains(RequestApply(s, step), id)
  {
    hide Remains; hide WornOut; hide Finishing; hide Mired; hide PutReq;
    MiredParts(s, id);
    ElseRemains(s, RequestApply(s, step), id);
  }

  // the others leave alone what matters here of the request they are about
  lemma OwnQuietRemains(s: State, step: Step, id: Id)
    requires RequestEnabled(s, step) && Quiet(step) && !step.FputFree? && step.id == id && Mired(s, id) && step != QueueKick(id)
    ensures Remains(RequestApply(s, step), id)
  {
    hide Remains; hide Mired; hide Finishing;
    MiredParts(s, id);
    UpdateRemains(s, RequestApply(s, step), id, RequestApply(s, step).reqs[id], id);
  }

  lemma RunStartRemains(s: State, t: Tid, k: Id, last: bool, id: Id)
    requires k in s.reqs && s.reqs[k].link.Linked? && t !in s.runs && Mired(s, id)
    ensures Remains(DoRunStart(s, t, k, last), id)
  {
    hide PutReq; hide Remains;
    MiredParts(s, id);
    var q := s.reqs[k].(users := s.reqs[k].users + 1, retried := s.reqs[k].retried + 1);
    if s.reqs[k].retried > MAX_RETRIES {
      PutRemains(s, s, k, q.(link := Capped), last, id);
    } else {
      ElseRemains(s, DoRunStart(s, t, k, last), id);
    }
  }

  lemma BeginRetryRemains(s: State, t: Tid, outcome: Outcome, id: Id)
    requires t in s.runs && s.runs[t].req in s.reqs && s.runs[t].pc == Unlocked && Mired(s, id)
    ensures Remains(DoBeginRetry(s, t, outcome), id)
  {
    hide Remains;
    ElseRemains(s, DoBeginRetry(s, t, outcome), id);
  }

  lemma QueueWaitRemains(s: State, t: Tid, id: Id)
    requires t in s.runs && s.runs[t].req in s.reqs && Mired(s, id)
    ensures Remains(DoQueueWait(s, t), id)
  {
    hide Remains;
    MiredParts(s, id);
    UpdateRemains(s, DoQueueWait(s, t), s.runs[t].req, s.reqs[s.runs[t].req].(waiting := true), id);
  }

  lemma RetryReturnRemains(s: State, t: Tid, id: Id)
    requires t in s.runs && s.runs[t].req in s.reqs && s.runs[t].pc.Retrying? && Mired(s, id)
    ensures Remains(DoRetryReturn(s, t), id)
  {
    hide Remains;
    if s.runs[t].req != id {
      ElseRemains(s, DoRetryReturn(s, t), id);
    } else {
      OwnReturnRemains(s, t, id);
    }
  }

  lemma OwnReturnRemains(s: State, t: Tid, id: Id)
    requires t in s.runs && s.runs[t].req == id && s.runs[t].pc.Retrying? && Mired(s, id)
    ensures Remains(DoRetryReturn(s, t), id)
  {
    hide WornOut; hide InUse;
    assert s.runs[t].pc == Retrying(Again);
    assert WornOut(s.reqs[id].(kicked := true)) by { WornOutKicked(s.reqs[id]); }
  }

  lemma WornOutKicked(q: Req)
    ensures WornOut(q.(kicked := true)) == WornOut(q)
  {
  }

  lemma RunFinishRemains(s: State, t: Tid, last: bool, id: Id)
    requires t in s.runs && s.runs[t].req in s.reqs && s.runs[t].pc.Returned? && Mired(s, id)
    ensures Remains(DoRunFinish(s, t, last), id)
  {
    hide PutReq; hide Remains; hide Finishing;
    MiredParts(s, id);
    var k := s.runs[t].req;
    var q := s.reqs[k].(runners := s.reqs[k].runners - {t});
    var link := if s.runs[t].pc.o != Again then q.link else if q.kicked then Linked(Context) else Empty;
    PutRemains(s, s.(runs := s.runs - {t}), k, q.(link := link), last, id);
  }

  lemma CompleteRemains(s: State, s0: State, who: Who, k: Id, q: Req, last: bool, id: Id)
    requires Mired(s, id) && k in s.reqs && k != id && s0.reqs == s.reqs && s0.uncompleted == s.uncompleted && s0.runs == s.runs
    ensures Remains(Complete(s0, who, k, q, last), id)
  {
    hide PutReq; hide Remains; hide Mired;
    MiredParts(s, id);
    PutRemains(s, Completer(s0, who, k).(uncompleted := s.uncompleted - {k}), k, q.(handed := false), last, id);
  }

  lemma NotCompleted(s: State, who: Who, k: Id, id: Id)
    requires MayComplete(s, who, k) && Mired(s, id)
    ensures k in s.reqs && k != id
  {
  }

  lemma CompleteWriteRemains(s: State, who: Who, k: Id, res: int, last: bool, id: Id)
    requires MayComplete(s, who, k) && s.ring.tail < |s.ring.slots| && Mired(s, id)
    ensures Remains(DoCompleteWrite(s, who, k, res, last), id)
  {
    hide Complete; hide Remains; hide Mired; hide MayComplete;
    NotCompleted(s, who, k, id);
    var q := s.reqs[k].(link := if s.reqs[k].link.Linked? then Empty else s.reqs[k].link);
    if q.cancelled {
      CompleteRemains(s, s.(silent := s.silent + {k}), who, k, q, last, id);
    } else {
      MiredParts(s, id);
      ElseRemains(s, DoCompleteWrite(s, who, k, res, last), id);
    }
  }

  lemma CompletePublishRemains(s: State, last: bool, id: Id)
    requires s.lock.Held? && s.lock.req in s.reqs && s.ring.nr > 0 && Mired(s, id)
    ensures Remains(DoCompletePublish(s, last), id)
  {
    hide Complete; hide Remains;
    CompleteRemains(s, s.(ring := AioRing.Publish(s.ring, s.lock.event), lock := Free), s.lock.who, s.lock.req,
                    s.reqs[s.lock.req], last, id);
  }

  lemma FailSecondPutRemains(s: State, k: Id, last: bool, id: Id)
    requires k in s.reqs && s.reqs[k].submitter == Failing && Mired(s, id)
    ensures Remains(DoFailSecondPut(s, k, last), id)
  {
    hide PutReq; hide Remains; hide Finishing; hide WornOut;
    MiredParts(s, id);
    PutRemains(s, s.(uncompleted := s.uncompleted - {k}, silent := s.silent + {k}), k, s.reqs[k].(submitter := Finished), last, id);
  }

  lemma PutStepRemains(s: State, step: Step, id: Id)
    requires RequestEnabled(s, step) && !Quiet(step) && Mired(s, id)
    ensures Remains(RequestApply(s, step), id)
  {
    hide Remains; hide Mired; hide PutReq; hide DoRunStart; hide DoBeginRetry; hide DoRetryReturn; hide DoFailSecondPut;
    hide DoRunFinish; hide DoCompleteWrite; hide DoCompletePublish; hide MayComplete; hide DoQueueWait; hide Finishing; hide WornOut;
    MiredParts(s, id);
    match step
    case FailFirstPut(k, last) => PutRemains(s, s, k, s.reqs[k].(submitter := Failing), last, id);
    case FailSecondPut(k, last) => FailSecondPutRemains(s, k, last, id);
    case SubmitPut(k, last) => SubmitPutRemains(s, k, last, id);
    case RunStart(t, k, last) => RunStartRemains(s, t, k, last, id);
    case BeginRetry(t, outcome) => BeginRetryRemains(s, t, outcome, id);
    case QueueWait(t) => QueueWaitRemains(s, t, id);
    case RetryReturn(t) => RetryReturnRemains(s, t, id);
    case RunFinish(t, last) => RunFinishRemains(s, t, last, id);
    case CompleteWrite(who, k, res, last) => CompleteWriteRemains(s, who, k, res, last, id);
    case CompletePublish(last) => CompletePublishRemains(s, last, id);
    case CancelPut(k, last) => CancelPutRemains(s, k, last, id);
  }

  lemma SubmitPutRemains(s: State, k: Id, last: bool, id: Id)
    requires k in s.reqs && Mired(s, id)
    ensures Remains(PutReq(s, k, s.reqs[k].(submitter := Finished), last), id)
  {
    hide Remains; hide PutReq;
    MiredParts(s, id);
    PutRemains(s, s, k, s.reqs[k].(submitter := Finished), last, id);
  }

  lemma CancelPutRemains(s: State, k: Id, last: bool, id: Id)
    requires k in s.reqs && s.reqs[k].cancels > 0 && Mired(s, id)
    ensures Remains(PutReq(s, k, s.reqs[k].(cancels := s.reqs[k].cancels - 1), last), id)
  {
    hide Remains; hide PutReq;
    MiredParts(s, id);
    PutRemains(s, s, k, s.reqs[k].(cancels := s.reqs[k].cancels - 1), last, id);
  }

  // nobody but a kick that is queued makes an unreleasable request releasable
  lemma UnreleasableKeeps(s: State, step: Step, id: Id)
    requires Inv(s) && Enabled(s, step) && Submitted(s, id) && !Releasable(s, id) && step != QueueKick(id)
    ensures Submitted(Apply(s, step), id) && !Releasable(Apply(s, step), id)
  {
    hide Inv; hide Releasable; hide Mired; hide Remains; hide ContextEnabled; hide RequestEnabled; hide ContextApply; hide RequestApply;
    MiredIs(s, id);
    NewId(s);
    StepKeeps(s, step);
    if OfContext(step) { ContextStepRemains(s, step, id); }
    else if Quiet(step) { QuietStepRemains(s, step, id); }
    else { PutStepRemains(s, step, id); }
    RemainsIs(Apply(s, step), id);
  }

  lemma {:induction false} UnreleasableStays(s: State, id: Id, more: seq<Step>)
    requires Inv(s) && Submitted(s, id) && !Releasable(s, id) && Runnable(s, more) && QueueKick(id) !in more
    ensures id in After(s, more).reqs
    decreases |more|
  {
    hide Inv; hide Releasable; hide Enabled; hide Apply;
    if more != [] {
      assert more[0] in more && forall x | x in more[1..] :: x in more;
      UnreleasableKeeps(s, more[0], id);
      StepKeeps(s, more[0]);
      UnreleasableStays(Apply(s, more[0]), id, more[1..]);
    }
  }

  lemma NeverLeads(s: State, id: Id)
    requires Inv(s) && Submitted(s, id) && !Releasable(s, id)
    ensures !Leads(s, id)
  {
    hide Inv; hide Releasable; hide Runnable; hide After;
    if Leads(s, id) {
      var more :| Escapes(s, id, more);
      UnreleasableStays(s, id, more);
    }
  }

  // The test-and-set changes nothing that matters here.
  lemma KickedReleasable(s: State, id: Id)
    requires id in s.reqs
    ensures Releasable(DoTryKick(s, id), id) == Releasable(s, id)
  {
  }

  // Between the test-and-set of a kick and the next queue_kicked_iocb of the request some
  // run frees the request if and only if the kick found it releasable.
  lemma FreedInFlight(s: State, slots: seq<AioRing.Event>, steps: seq<Step>, id: Id)
    requires Reachable(s, slots, steps) && Submitted(s, id)
    ensures Leads(DoTryKick(s, id), id) <==> Releasable(s, id)
  {
    hide Reachable; hide Inv; hide Leads; hide Releasable;
    ReachableInv(s, slots, steps);
    KickStepKeeps(s, TryKick(id));
    KickedReleasable(s, id);
    var s1 := DoTryKick(s, id);
    if Releasable(s1, id) {
      ReleasableLeads(s1, id);
    } else {
      NeverLeads(s1, id);
    }
  }
}
