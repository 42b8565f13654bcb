// One kioctx of fs/aio.c and every request on it, as a state machine whose steps
// end where ctx_lock is released.  Any interleaving of enabled steps is a run.
module AioContext {
  import opened AioRing

  type Id = nat   // requests, numbered in order of allocation
  type Tid = nat  // threads that drain a run list

  const MAX_RETRIES := 1024 * 1024

  // ---------------------------------------------------------------- state

  datatype Where = Context | Private(t: Tid)

  // ki_run_list: both links NULL, an empty list, on a run list, or taken off by
  // list_del and never initialised again because the retry limit was hit
  datatype Link = Null | Empty | Linked(on: Where) | Capped

  // io_submit_one: before the request is queued, on its error path, after queueing,
  // and after its last reference is dropped
  datatype Submitter = Preparing | Failing | Queueing | Finished

  // on active_reqs or free of it, on fput_head, or taken off by aio_fput_routine
  datatype Place = Live | Parked | Closing

  datatype Req = Req(
    users: int,        // ki_users
    kicked: bool,      // KIF_KICKED
    cancelled: bool,   // KIF_CANCELLED
    retried: nat,      // ki_retried
    link: Link,        // ki_run_list
    active: bool,      // on active_reqs
    place: Place,
    submitter: Submitter,
    cancels: nat,      // cancel callbacks that still hold their reference
    runners: set<Tid>, // threads inside aio_run_iocb for this request
    kickers: nat,      // callers of kick_iocb yet to enter queue_kicked_iocb
    waiting: bool,     // ki_wait is on a wait queue
    wakers: nat,       // runs of aio_wake_function that took it off and will kick
    handed: bool)      // a retry method gave it to a driver, which will complete it

  // what a retry method returns: a result, -EIOCBQUEUED or -EIOCBRETRY
  datatype Outcome = Final | Queued | Again

  // where a thread is in aio_run_iocb after the lock was released
  datatype Pc = Unlocked | Doomed | Retrying(o: Outcome) | Completing | Returned(o: Outcome)

  datatype Run = Run(req: Id, pc: Pc)

  datatype Who = Driver | Runner(t: Tid)

  // ctx_lock is held across a step boundary only inside aio_complete, between
  // writing the event and publishing the tail
  datatype Lock = Free | Held(who: Who, req: Id, event: Event)

  datatype State = State(
    users: int,              // ctx->users
    dead: bool,
    listed: bool,            // the reference of mm->ioctx_list, or of exit_aio
    lookups: nat,            // references held by system calls
    puts: nat,               // put_ioctx calls due from last puts of requests and io_destroy
    reqsActive: int,         // reqs_active
    reqs: map<Id, Req>,      // allocated requests
    runs: map<Tid, Run>,
    lock: Lock,
    ring: Ring,
    nextId: Id,
    uncompleted: set<Id>,    // requests whose i/o reference is not yet dropped
    silent: set<Id>,         // finished without an event: cancelled or never submitted
    freed: seq<Id>,          // requests given back to the allocator, in order
    stray: multiset<Id>,     // kicks in flight and wait entries left of freed requests
    bug: bool)               // a BUG() was reached

  function Setup(slots: seq<Event>): State {
    State(1, false, true, 0, 0, 0, map[], map[], Free, AioRing.Setup(slots), 0, {}, {}, [], multiset{}, false)
  }

  function Bit(b: bool): nat {
    if b then 1 else 0
  }

  // ------------------------------------------------------ reference counting

  function GetIoctx(s: State): State {
    s.(users := s.users + 1, bug := s.bug || s.users <= 0)
  }

  function PutIoctx(s: State): State {
    s.(users := s.users - 1, bug := s.bug || s.users - 1 < 0 || (s.users - 1 == 0 && s.reqsActive != 0))
  }

  // accesses to a request by kicks that have begun or that a wait queue still owes
  function Outstanding(q: Req): nat {
    q.kickers + q.wakers + Bit(q.waiting)
  }

  // really_put_req on q, the current contents of request id
  function Release(s: State, id: Id, q: Req): State {
    s.(reqs := s.reqs - {id}, reqsActive := s.reqsActive - 1, freed := s.freed + [id],
       stray := s.stray[id := s.stray[id] + Outstanding(q)])
  }

  // a reference is left
  function Keep(s: State, id: Id, q: Req): State {
    s.(reqs := s.reqs[id := q], bug := s.bug || q.users < 0)
  }

  // the last reference: the request goes to fput_head, with a context reference
  function Park(s: State, id: Id, q: Req): State {
    GetIoctx(s).(reqs := s.reqs[id := q.(active := false, place := Parked)], puts := s.puts + 1)
  }

  // __aio_put_req on q, the current contents of request id; lastFile says that the
  // request was the last user of its file.  The put_ioctx that the caller owes after
  // a last put is counted in puts.
  function PutReq(s: State, id: Id, q: Req, lastFile: bool): State {
    var q' := q.(users := q.users - 1);
    if q'.users != 0 then Keep(s, id, q')
    else if lastFile then Park(s, id, q')
    else Release(s, id, q').(puts := s.puts + 1)
  }

  // ---------------------------------------------------------------- steps

  datatype Step =
    | Lookup
    | LookupPut
    | Destroy
    | ExitBegin
    | ExitEnd
    | PutDue
    | GetReq
    | FailFirstPut(id: Id, last: bool)
    | FailSecondPut(id: Id, last: bool)
    | SubmitQueue(id: Id)
    | SubmitPut(id: Id, last: bool)
    | Splice(t: Tid)
    | RunStart(t: Tid, id: Id, last: bool)
    | BeginRetry(t: Tid, outcome: Outcome)
    | QueueWait(t: Tid)
    | RetryReturn(t: Tid)
    | RunFinish(t: Tid, last: bool)
    | CompleteWrite(who: Who, id: Id, res: int, last: bool)
    | CompletePublish(last: bool)
    | Wake(id: Id)
    | WakeKick(id: Id)
    | TryKick(id: Id)
    | QueueKick(id: Id)
    | StaleKick(id: Id)
    | Cancel(id: Id, callback: bool)
    | CancelAll(id: Id, callback: bool)
    | CancelPut(id: Id, last: bool)
    | FputTake(id: Id)
    | FputFree(id: Id)
    | ReadCopy
    | ReadAcknowledge

  predicate InUse(s: State, id: Id) {
    id in s.reqs && s.reqs[id].place == Place.Live
  }

  // io_submit_one is done with its preparations, so drivers know the request
  predicate Submitted(s: State, id: Id) {
    id in s.reqs && (s.reqs[id].submitter == Queueing || s.reqs[id].submitter == Finished)
  }

  // the caller of aio_complete: a thread whose retry is over, or a driver
  predicate MayComplete(s: State, who: Who, id: Id) {
    InUse(s, id) && match who
      case Driver => s.reqs[id].handed
      case Runner(t) => t in s.runs && s.runs[t].req == id && (s.runs[t].pc == Doomed || s.runs[t].pc == Completing)
  }

  // steps that are not about one request
  predicate OfContext(step: Step) {
    || step.Lookup? || step.LookupPut? || step.Destroy? || step.ExitBegin? || step.ExitEnd? || step.PutDue? || step.GetReq?
    || step.Splice? || step.StaleKick? || step.ReadCopy? || step.ReadAcknowledge?
  }

  predicate ContextEnabled(s: State, step: Step) {
    match step
    case Lookup => s.listed && !s.dead
    case LookupPut => s.lookups > 0
    case Destroy => s.lookups > 0
    case ExitBegin => s.listed && !s.dead && s.lookups == 0
    case ExitEnd => s.listed && s.dead && s.reqsActive == 0
    case PutDue => s.puts > 0
    case GetReq => s.lock.Free? && s.lookups > 0 && s.ring.nr > 0
    case Splice(t) => s.lock.Free? && t !in s.runs
    case StaleKick(id) => s.lock.Free? && id in s.stray
    case ReadCopy => s.lookups > 0 && CanCopy(s.ring)
    case ReadAcknowledge => s.ring.reader.Some? && s.ring.nr > 0
    case _ => false
  }

  predicate RequestEnabled(s: State, step: Step) {
    match step
    case FailFirstPut(id, last) => s.lock.Free? && InUse(s, id) && s.reqs[id].submitter == Preparing
    case FailSecondPut(id, last) => s.lock.Free? && InUse(s, id) && s.reqs[id].submitter == Failing
    case SubmitQueue(id) => s.lock.Free? && InUse(s, id) && s.reqs[id].submitter == Preparing
    case SubmitPut(id, last) => s.lock.Free? && InUse(s, id) && s.reqs[id].submitter == Queueing
    case RunStart(t, id, last) => s.lock.Free? && t !in s.runs && InUse(s, id) && s.reqs[id].link == Linked(Private(t))
    case BeginRetry(t, outcome) => t in s.runs && s.runs[t].pc == Unlocked && s.runs[t].req in s.reqs
    case QueueWait(t) => t in s.runs && s.runs[t].pc == Retrying(Again) && s.runs[t].req in s.reqs
    case RetryReturn(t) => t in s.runs && s.runs[t].pc.Retrying? && s.runs[t].req in s.reqs
    case RunFinish(t, last) => s.lock.Free? && t in s.runs && s.runs[t].pc.Returned? && s.runs[t].req in s.reqs
    case CompleteWrite(who, id, res, last) => s.lock.Free? && MayComplete(s, who, id) && s.ring.tail < |s.ring.slots|
    case CompletePublish(last) => s.lock.Held? && s.lock.req in s.reqs && s.ring.nr > 0
    case Wake(id) => id in s.reqs && s.reqs[id].waiting
    case WakeKick(id) => id in s.reqs && s.reqs[id].wakers > 0
    case TryKick(id) => Submitted(s, id)
    case QueueKick(id) => s.lock.Free? && id in s.reqs && s.reqs[id].kickers > 0
    case Cancel(id, callback) => s.lock.Free? && s.lookups > 0 && InUse(s, id) && s.reqs[id].active
    case CancelAll(id, callback) => s.lock.Free? && s.dead && InUse(s, id) && s.reqs[id].active
    case CancelPut(id, last) => s.lock.Free? && InUse(s, id) && s.reqs[id].cancels > 0
    case FputTake(id) => id in s.reqs && s.reqs[id].place == Parked
    case FputFree(id) => s.lock.Free? && id in s.reqs && s.reqs[id].place == Closing
    case _ => false
  }

  predicate Enabled(s: State, step: Step) {
    if OfContext(step) then ContextEnabled(s, step) else RequestEnabled(s, step)
  }

  function WithReq(s: State, id: Id, q: Req): State {
    s.(reqs := s.reqs[id := q])
  }

  function FreshReq(): Req {
    Req(2, false, false, 0, Null, true, Place.Live, Preparing, 0, {}, 0, false, 0, false)
  }

  // __aio_get_req; a request that does not fit is not allocated
  function DoGetReq(s: State): State
    requires s.ring.nr > 0
  {
    if s.reqsActive < Avail(s.ring) then Allocate(s) else s
  }

  function Allocate(s: State): State {
    GetIoctx(s).(reqs := s.reqs[s.nextId := FreshReq()], reqsActive := s.reqsActive + 1, nextId := s.nextId + 1,
                 uncompleted := s.uncompleted + {s.nextId})
  }

  // list_splice_init at the head of __aio_run_iocbs
  function DoSplice(s: State, t: Tid): State {
    s.(reqs := map id | id in s.reqs :: if s.reqs[id].link == Linked(Context)
                                        then s.reqs[id].(link := Linked(Private(t))) else s.reqs[id])
  }

  // the first half of aio_run_iocb, with the reference __aio_run_iocbs takes; over
  // the limit it returns at once and the reference is dropped again
  function DoRunStart(s: State, t: Tid, id: Id, last: bool): State
    requires id in s.reqs
  {
    var q := s.reqs[id].(users := s.reqs[id].users + 1, retried := s.reqs[id].retried + 1);
    if s.reqs[id].retried > MAX_RETRIES then PutReq(s, id, q.(link := Capped), last)
    else WithReq(s, id, q.(kicked := false, link := Null, runners := q.runners + {t})).(runs := s.runs[t := Run(id, Unlocked)])
  }

  function DoBeginRetry(s: State, t: Tid, outcome: Outcome): State
    requires t in s.runs && s.runs[t].req in s.reqs
  {
    var id := s.runs[t].req;
    var q := s.reqs[id];
    if q.cancelled then s.(runs := s.runs[t := Run(id, Doomed)])
    else WithReq(s, id, q.(handed := q.handed || outcome == Queued)).(runs := s.runs[t := Run(id, Retrying(outcome))])
  }

  // the retry method leaves ki_wait on a wait queue
  function DoQueueWait(s: State, t: Tid): State
    requires t in s.runs && s.runs[t].req in s.reqs
  {
    WithReq(s, s.runs[t].req, s.reqs[s.runs[t].req].(waiting := true))
  }

  // a retry that is to be repeated but waits for nothing kicks the request itself
  function DoRetryReturn(s: State, t: Tid): State
    requires t in s.runs && s.runs[t].req in s.reqs && s.runs[t].pc.Retrying?
  {
    var id := s.runs[t].req;
    var q := s.reqs[id];
    match s.runs[t].pc.o
    case Final => s.(runs := s.runs[t := Run(id, Completing)])
    case Queued => s.(runs := s.runs[t := Run(id, Returned(Queued))])
    case Again => WithReq(s, id, q.(kicked := q.kicked || !q.waiting)).(runs := s.runs[t := Run(id, Returned(Again))])
  }

  // the second half of aio_run_iocb: re-enable queueing, queue again if kicked, and
  // drop the reference of __aio_run_iocbs
  function DoRunFinish(s: State, t: Tid, last: bool): State
    requires t in s.runs && s.runs[t].req in s.reqs && s.runs[t].pc.Returned?
  {
    var id := s.runs[t].req;
    var q := s.reqs[id].(runners := s.reqs[id].runners - {t});
    var link := if s.runs[t].pc.o != Again then q.link else if q.kicked then Linked(Context) else Empty;
    PutReq(s.(runs := s.runs - {t}), id, q.(link := link), last)
  }

  // the thread that called aio_complete goes on; a driver has done its part
  function Completer(s: State, who: Who, id: Id): State {
    match who
    case Driver => s
    case Runner(t) => s.(runs := s.runs[t := Run(id, Returned(Final))])
  }

  // the reference of the i/o is dropped and the request is complete
  function Complete(s: State, who: Who, id: Id, q: Req, last: bool): State {
    PutReq(Completer(s, who, id).(uncompleted := s.uncompleted - {id}), id, q.(handed := false), last)
  }

  // aio_complete up to the event; cancelled requests get none
  function DoCompleteWrite(s: State, who: Who, id: Id, res: int, last: bool): State
    requires id in s.reqs && s.ring.tail < |s.ring.slots|
  {
    var q := s.reqs[id].(link := if s.reqs[id].link.Linked? then Empty else s.reqs[id].link);
    if q.cancelled then Complete(s.(silent := s.silent + {id}), who, id, q, last)
    else WithReq(s, id, q).(ring := Write(s.ring, Event(id, res)), lock := Held(who, id, Event(id, res)))
  }

  function DoCompletePublish(s: State, last: bool): State
    requires s.lock.Held? && s.lock.req in s.reqs && s.ring.nr > 0
  {
    Complete(s.(ring := Publish(s.ring, s.lock.event), lock := Free), s.lock.who, s.lock.req, s.reqs[s.lock.req], last)
  }

  // aio_wake_function: off the wait queue, then kick_iocb
  function DoWake(s: State, id: Id): State
    requires id in s.reqs
  {
    WithReq(s, id, s.reqs[id].(waiting := false, wakers := s.reqs[id].wakers + 1))
  }

  function DoWakeKick(s: State, id: Id): State
    requires id in s.reqs && s.reqs[id].wakers > 0
  {
    var q := s.reqs[id];
    WithReq(s, id, q.(wakers := q.wakers - 1, kicked := true, kickers := if q.kicked then q.kickers else q.kickers + 1))
  }

  // kick_iocb: test and set, outside the lock
  function DoTryKick(s: State, id: Id): State
    requires id in s.reqs
  {
    var q := s.reqs[id];
    if q.kicked then s else WithReq(s, id, q.(kicked := true, kickers := q.kickers + 1))
  }

  // queue_kicked_iocb
  function DoQueueKick(s: State, id: Id): State
    requires id in s.reqs && s.reqs[id].kickers > 0
  {
    var q := s.reqs[id];
    WithReq(s, id, q.(kickers := q.kickers - 1, link := if q.link == Empty then Linked(Context) else q.link))
  }

  // The rest of a kick of a request that was freed in between.  What it does to the
  // memory is up to the next owner; the model only takes it off the list.
  function DoStaleKick(s: State, id: Id): State {
    s.(stray := s.stray - multiset{id})
  }

  // sys_io_cancel finds the request on active_reqs; aio_cancel_all takes it off
  function DoCancel(s: State, id: Id, callback: bool, all: bool): State
    requires id in s.reqs
  {
    var q := s.reqs[id];
    var held := if callback then q.(users := q.users + 1, cancels := q.cancels + 1) else q;
    WithReq(s, id, if callback || all then held.(cancelled := true, active := q.active && !all) else q)
  }

  // io_destroy up to its wait; a caller that finds the context dead drops no list reference
  function DoDestroy(s: State): State {
    if s.dead then s else s.(dead := true, listed := false, puts := s.puts + 1)
  }

  // on its error path io_submit_one drops its own reference and that of the i/o
  function DoFailSecondPut(s: State, id: Id, last: bool): State
    requires id in s.reqs
  {
    PutReq(s.(uncompleted := s.uncompleted - {id}, silent := s.silent + {id}), id, s.reqs[id].(submitter := Finished), last)
  }

  function ContextApply(s: State, step: Step): State
    requires ContextEnabled(s, step)
  {
    match step
    case Lookup => GetIoctx(s).(lookups := s.lookups + 1)
    case LookupPut => PutIoctx(s).(lookups := s.lookups - 1)
    case Destroy => DoDestroy(s)
    case ExitBegin => s.(dead := true)
    case ExitEnd => PutIoctx(s).(listed := false)
    case PutDue => PutIoctx(s).(puts := s.puts - 1)
    case GetReq => DoGetReq(s)
    case Splice(t) => DoSplice(s, t)
    case StaleKick(id) => DoStaleKick(s, id)
    case ReadCopy => s.(ring := Copy(s.ring))
    case ReadAcknowledge => s.(ring := Acknowledge(s.ring))
  }

  function RequestApply(s: State, step: Step): State
    requires RequestEnabled(s, step)
  {
    match step
    case FailFirstPut(id, last) => PutReq(s, id, s.reqs[id].(submitter := Failing), last)
    case FailSecondPut(id, last) => DoFailSecondPut(s, id, last)
    case SubmitQueue(id) => WithReq(s, id, s.reqs[id].(submitter := Queueing, link := Linked(Context)))
    case SubmitPut(id, last) => PutReq(s, id, s.reqs[id].(submitter := Finished), last)
    case RunStart(t, id, last) => DoRunStart(s, t, id, last)
    case BeginRetry(t, outcome) => DoBeginRetry(s, t, outcome)
    case QueueWait(t) => DoQueueWait(s, t)
    case RetryReturn(t) => DoRetryReturn(s, t)
    case RunFinish(t, last) => DoRunFinish(s, t, last)
    case CompleteWrite(who, id, res, last) => DoCompleteWrite(s, who, id, res, last)
    case CompletePublish(last) => DoCompletePublish(s, last)
    case Wake(id) => DoWake(s, id)
    case WakeKick(id) => DoWakeKick(s, id)
    case TryKick(id) => DoTryKick(s, id)
    case QueueKick(id) => DoQueueKick(s, id)
    case Cancel(id, callback) => DoCancel(s, id, callback, false)
    case CancelAll(id, callback) => DoCancel(s, id, callback, true)
    case CancelPut(id, last) => PutReq(s, id, s.reqs[id].(cancels := s.reqs[id].cancels - 1), last)
    case FputTake(id) => WithReq(s, id, s.reqs[id].(place := Closing))
    case FputFree(id) => Release(s, id, s.reqs[id]).(puts := s.puts + 1)
  }

  function Apply(s: State, step: Step): State
    requires Enabled(s, step)
  {
    if OfContext(step) then ContextApply(s, step) else RequestApply(s, step)
  }

  // -------------------------------------------------------------- invariant

  // what holds of a request, unc telling whether it is uncompleted
  ghost predicate ReqOk(q: Req, unc: bool) {
    if q.place == Place.Live then q.users > 0 && LiveOk(q, unc)
    else q.users == 0 && !unc && q.runners == {} && q.cancels == 0 && q.submitter == Finished && !q.active && !q.handed
         && q.link == Null
  }

  // its references: the submitter's, the i/o's, one a cancel callback, one a runner
  ghost predicate LiveOk(q: Req, unc: bool) {
    && q.users == Bit(q.submitter == Preparing || q.submitter == Queueing) + Bit(unc) + q.cancels + |q.runners|
    && |q.runners| <= 1
    && if q.submitter == Preparing || q.submitter == Failing
       then unc && q.link == Null && q.runners == {} && !q.handed && !q.kicked && Outstanding(q) == 0
       else Progress(q, unc)
  }

  // a submitted request is queued, idle until kicked, over the limit, or off the
  // lists: being retried, in the hands of a driver, or complete
  ghost predicate Progress(q: Req, unc: bool) {
    && (q.handed ==> unc)
    && match q.link
       case Linked(_) => unc && q.runners == {} && !q.handed
       case Empty => unc && q.runners == {} && !q.handed && (q.kicked ==> q.kickers > 0) && Awaited(q)
       case Capped => unc && q.runners == {} && !q.handed && q.retried > MAX_RETRIES
       case Null => unc && q.runners == {} ==> q.handed
  }

  // the next kick has come or is on its way
  ghost predicate Awaited(q: Req) {
    q.kicked || q.waiting || q.wakers > 0
  }

  // what holds of a thread inside aio_run_iocb for q
  ghost predicate RunOk(q: Req, unc: bool, t: Tid, pc: Pc) {
    && q.place == Place.Live && t in q.runners && (q.submitter == Queueing || q.submitter == Finished)
    && match pc
       case Unlocked => unc && !q.handed
       case Doomed => unc && !q.handed && q.cancelled
       case Retrying(o) => if o == Queued then unc == q.handed else unc && !q.handed
       case Completing => unc && !q.handed
       case Returned(o) => if o == Queued then unc == q.handed else if o == Again then unc && !q.handed && Awaited(q) else !unc
  }

  ghost predicate Requests(reqs: map<Id, Req>, unc: set<Id>) {
    forall id | id in reqs :: ReqOk(reqs[id], id in unc)
  }

  ghost predicate Threads(reqs: map<Id, Req>, runs: map<Tid, Run>, unc: set<Id>) {
    forall t | t in runs :: runs[t].req in reqs && RunOk(reqs[runs[t].req], runs[t].req in unc, t, runs[t].pc)
  }

  ghost predicate Runners(reqs: map<Id, Req>, runs: map<Tid, Run>) {
    forall id, t | id in reqs && t in reqs[id].runners :: t in runs && runs[t].req == id
  }

  // context references and the active count
  ghost predicate Counts(s: State) {
    && s.users == Bit(s.listed) + s.lookups + |s.reqs| + s.puts
    && s.reqsActive == |s.reqs|
    && (!s.dead ==> s.listed) && !s.bug
  }

  // an event of request id has been published
  ghost predicate Posted(posted: seq<Event>, id: Id) {
    exists i :: 0 <= i < |posted| && posted[i].req == id
  }

  // every request so far is uncompleted, finished silently, or has exactly one event
  ghost predicate Events(next: Id, unc: set<Id>, silent: set<Id>, posted: seq<Event>) {
    && (forall id | 0 <= id < next :: id in unc || id in silent || Posted(posted, id))
    && (forall id | id in unc :: id < next)
    && (forall id | id in silent :: id < next && id !in unc && !Posted(posted, id))
    && (forall i | 0 <= i < |posted| :: posted[i].req < next && posted[i].req !in unc)
    && (forall i, j | 0 <= i < j < |posted| :: posted[i].req != posted[j].req)
  }

  // every request so far is allocated or has been freed once
  ghost predicate Frees(next: Id, ids: set<Id>, freed: seq<Id>) {
    && (forall id | 0 <= id < next :: id in ids || id in freed)
    && (forall id | id in ids :: id < next)
    && (forall i | 0 <= i < |freed| :: freed[i] < next && freed[i] !in ids)
    && (forall i, j | 0 <= i < j < |freed| :: freed[i] != freed[j])
  }

  // every uncompleted request has a slot of the ring to itself
  ghost predicate Room(ring: Ring, unc: set<Id>) {
    AioRing.Inv(ring) && |unc| + Unread(ring) <= ring.nr - 1
  }

  // the event being completed has been written but not published
  ghost predicate LockOk(s: State) {
    s.lock.Held? ==>
      && s.lock.req in s.uncompleted && MayComplete(s, s.lock.who, s.lock.req) && !s.reqs[s.lock.req].cancelled
      && s.lock.event.req == s.lock.req && s.ring.tail < |s.ring.slots| && s.ring.slots[s.ring.tail] == s.lock.event
  }

  ghost predicate Inv(s: State) {
    && Requests(s.reqs, s.uncompleted) && Threads(s.reqs, s.runs, s.uncompleted) && Runners(s.reqs, s.runs)
    && Counts(s) && s.uncompleted <= s.reqs.Keys
    && Events(s.nextId, s.uncompleted, s.silent, s.ring.posted) && Frees(s.nextId, s.reqs.Keys, s.freed)
    && Room(s.ring, s.uncompleted) && LockOk(s)
  }

  // --------------------------------------------------- the invariant is kept

  // s is consistent once one reference to id, whose contents are q, is dropped
  ghost predicate Owing(s: State, id: Id, q: Req) {
    && id in s.reqs && s.lock.Free?
    && q.place == Place.Live && LiveOk(q.(users := q.users - 1), id in s.uncompleted)
    && (forall i | i in s.reqs && i != id :: ReqOk(s.reqs[i], i in s.uncompleted))
    && Threads(s.reqs[id := q], s.runs, s.uncompleted) && Runners(s.reqs[id := q], s.runs)
    && Counts(s) && s.uncompleted <= s.reqs.Keys
    && Events(s.nextId, s.uncompleted, s.silent, s.ring.posted) && Frees(s.nextId, s.reqs.Keys, s.freed)
    && Room(s.ring, s.uncompleted)
  }

  lemma KeysLess(m: map<Id, Req>, id: Id)
    requires id in m
    ensures |m - {id}| == |m| - 1
  {
    assert (m - {id}).Keys == m.Keys - {id};
  }

  lemma KeysSame(m: map<Id, Req>, id: Id, q: Req)
    requires id in m
    ensures |m[id := q]| == |m| && m[id := q].Keys == m.Keys
  {
    assert m[id := q].Keys == m.Keys;
  }

  // a step that changes request id to q, and threads inside aio_run_iocb for id only
  lemma ThreadsAfter(reqs: map<Id, Req>, runs: map<Tid, Run>, unc: set<Id>, id: Id, q: Req,
                     runs': map<Tid, Run>, unc': set<Id>)
    requires Threads(reqs, runs, unc) && Runners(reqs, runs)
    requires forall i | i in reqs && i != id :: i in unc <==> i in unc'
    requires forall t | t in runs' && runs'[t].req == id :: RunOk(q, id in unc', t, runs'[t].pc)
    requires forall t | t in runs' && runs'[t].req != id :: t in runs && runs[t] == runs'[t]
    requires forall t | t in runs && runs[t].req != id :: t in runs' && runs[t] == runs'[t]
    requires forall t | t in q.runners :: t in runs' && runs'[t].req == id
    ensures Threads(reqs[id := q], runs', unc') && Runners(reqs[id := q], runs')
  {
    var reqs' := reqs[id := q];
    forall t | t in runs'
      ensures runs'[t].req in reqs' && RunOk(reqs'[runs'[t].req], runs'[t].req in unc', t, runs'[t].pc)
    {
      if runs'[t].req != id { assert runs[t].req in reqs && RunOk(reqs[runs[t].req], runs[t].req in unc, t, runs[t].pc); }
    }
    forall i, t | i in reqs' && t in reqs'[i].runners
      ensures t in runs' && runs'[t].req == i
    {
      if i != id { assert t in reqs[i].runners; }
    }
  }

  // q differs from the request in nothing the threads inside aio_run_iocb rely on
  ghost predicate AlikeToRunners(p: Req, q: Req) {
    && p.place == q.place && p.runners == q.runners && p.handed == q.handed && (p.cancelled ==> q.cancelled)
    && (p.submitter == Queueing || p.submitter == Finished ==> q.submitter == Queueing || q.submitter == Finished)
    && (Awaited(p) ==> Awaited(q))
  }

  lemma ThreadsUnmoved(reqs: map<Id, Req>, runs: map<Tid, Run>, unc: set<Id>, id: Id, q: Req)
    requires Threads(reqs, runs, unc) && Runners(reqs, runs) && id in reqs && AlikeToRunners(reqs[id], q)
    ensures Threads(reqs[id := q], runs, unc) && Runners(reqs[id := q], runs)
  {
    forall t | t in runs && runs[t].req == id
      ensures RunOk(q, id in unc, t, runs[t].pc)
    {
      assert RunOk(reqs[id], id in unc, t, runs[t].pc);
    }
    ThreadsAfter(reqs, runs, unc, id, q, runs, unc);
  }

  // no thread is inside aio_run_iocb for a request without runners
  lemma NobodyRuns(reqs: map<Id, Req>, runs: map<Tid, Run>, unc: set<Id>, id: Id)
    requires Threads(reqs, runs, unc) && id in reqs && reqs[id].runners == {}
    ensures forall t | t in runs :: runs[t].req != id
  {
    forall t | t in runs
      ensures runs[t].req != id
    {
      assert RunOk(reqs[runs[t].req], runs[t].req in unc, t, runs[t].pc);
    }
  }

  lemma ThreadsWithout(reqs: map<Id, Req>, runs: map<Tid, Run>, unc: set<Id>, id: Id)
    requires Threads(reqs, runs, unc) && Runners(reqs, runs) && id in reqs && reqs[id].runners == {}
    ensures Threads(reqs - {id}, runs, unc) && Runners(reqs - {id}, runs)
  {
    NobodyRuns(reqs, runs, unc, id);
    forall t | t in runs
      ensures runs[t].req in reqs - {id} && RunOk((reqs - {id})[runs[t].req], runs[t].req in unc, t, runs[t].pc)
    {
      assert RunOk(reqs[runs[t].req], runs[t].req in unc, t, runs[t].pc);
    }
    forall i, t | i in reqs - {id} && t in reqs[i].runners
      ensures t in runs && runs[t].req == i
    {
    }
  }

  lemma PutStays(s: State, id: Id, q: Req, last: bool)
    requires Owing(s, id, q) && q.users != 1
    ensures Inv(PutReq(s, id, q, last))
  {
    hide Threads; hide Runners; hide Events; hide Frees; hide Room; hide LiveOk;
    var q' := q.(users := q.users - 1);
    KeysSame(s.reqs, id, q');
    ThreadsUnmoved(s.reqs[id := q], s.runs, s.uncompleted, id, q');
    assert s.reqs[id := q][id := q'] == s.reqs[id := q'];
    Positive(q', id in s.uncompleted);
  }

  lemma Positive(q: Req, unc: bool)
    requires LiveOk(q, unc)
    ensures q.users >= 0
  {
  }

  lemma LastRefs(q: Req, unc: bool)
    requires LiveOk(q, unc) && q.users == 0
    ensures !unc && q.runners == {} && q.cancels == 0 && q.submitter == Finished && !q.handed && q.link == Null
  {
  }

  lemma PutParks(s: State, id: Id, q: Req)
    requires Owing(s, id, q) && q.users == 1
    ensures Inv(PutReq(s, id, q, true))
  {
    hide Threads; hide Runners; hide Events; hide Frees; hide Room; hide LiveOk;
    var q' := q.(users := 0, active := false, place := Parked);
    LastRefs(q.(users := 0), id in s.uncompleted);
    KeysSame(s.reqs, id, q');
    NobodyRuns(s.reqs[id := q], s.runs, s.uncompleted, id);
    ThreadsAfter(s.reqs[id := q], s.runs, s.uncompleted, id, q', s.runs, s.uncompleted);
    assert s.reqs[id := q][id := q'] == s.reqs[id := q'];
  }

  lemma FreeKeeps(next: Id, ids: set<Id>, freed: seq<Id>, id: Id)
    requires Frees(next, ids, freed) && id in ids
    ensures Frees(next, ids - {id}, freed + [id])
  {
    forall i | 0 <= i < next
      ensures i in ids - {id} || i in freed + [id]
    {
      assert i in ids || i in freed;
      assert id == (freed + [id])[|freed|];
    }
  }

  lemma PutFrees(s: State, id: Id, q: Req)
    requires Owing(s, id, q) && q.users == 1
    ensures Inv(PutReq(s, id, q, false))
  {
    hide Threads; hide Runners; hide Events; hide Frees; hide Room; hide LiveOk;
    LastRefs(q.(users := 0), id in s.uncompleted);
    KeysLess(s.reqs, id);
    assert (s.reqs - {id}).Keys == s.reqs.Keys - {id};
    FreeKeeps(s.nextId, s.reqs.Keys, s.freed, id);
    ThreadsWithout(s.reqs[id := q], s.runs, s.uncompleted, id);
    assert s.reqs[id := q] - {id} == s.reqs - {id};
  }

  lemma PutKeeps(s: State, id: Id, q: Req, last: bool)
    requires Owing(s, id, q)
    ensures Inv(PutReq(s, id, q, last))
  {
    hide *;
    if q.users != 1 { PutStays(s, id, q, last); }
    else if last { PutParks(s, id, q); }
    else { PutFrees(s, id, q); }
  }

  // ------------------------------------------------------ one lemma a step

  // steps that only move context references, and the one that touches nothing of the context
  lemma CountStepKeeps(s: State, step: Step)
    requires Inv(s) && ContextEnabled(s, step)
    requires step.Lookup? || step.LookupPut? || step.Destroy? || step.ExitBegin? || step.ExitEnd? || step.PutDue? || step.StaleKick?
    ensures Inv(ContextApply(s, step))
  {
    hide Requests; hide Threads; hide Runners; hide Events; hide Frees; hide Room; hide CanCopy;
  }

  lemma NewRequest(reqs: map<Id, Req>, unc: set<Id>, id: Id, q: Req)
    requires Requests(reqs, unc) && id !in reqs && ReqOk(q, true)
    ensures Requests(reqs[id := q], unc + {id}) && |reqs[id := q]| == |reqs| + 1 && reqs[id := q].Keys == reqs.Keys + {id}
  {
    hide ReqOk;
    assert reqs[id := q].Keys == reqs.Keys + {id};
  }

  lemma RoomForNew(s: State)
    requires Inv(s) && s.ring.nr > 0 && s.reqsActive < Avail(s.ring)
    ensures Room(s.ring, s.uncompleted + {s.nextId})
  {
    hide Requests; hide Threads; hide Runners; hide Events; hide Frees; hide Avail; hide LockOk;
    AvailIsFree(s.ring);
    SubsetSmaller(s.uncompleted, s.reqs.Keys);
    NewId(s);
  }

  lemma NewThreads(s: State, id: Id, q: Req)
    requires Inv(s) && id == s.nextId && q.runners == {}
    ensures Threads(s.reqs[id := q], s.runs, s.uncompleted + {id}) && Runners(s.reqs[id := q], s.runs)
  {
    hide Requests; hide Threads; hide Runners; hide Events; hide Frees; hide Room; hide LockOk; hide Counts; hide RunOk;
    NobodyAtNew(s);
    ThreadsAfter(s.reqs, s.runs, s.uncompleted, id, q, s.runs, s.uncompleted + {id});
  }

  lemma AllocateKeeps(s: State)
    requires Inv(s) && s.lock.Free? && s.lookups > 0 && Room(s.ring, s.uncompleted + {s.nextId})
    ensures Inv(Allocate(s))
  {
    hide Requests; hide Threads; hide Runners; hide Events; hide Frees; hide Room; hide MayComplete; hide FreshReq; hide Counts;
    NewId(s);
    AllocateCounts(s);
    var q := FreshOk();
    NewRequest(s.reqs, s.uncompleted, s.nextId, q);
    NewEvents(s.nextId, s.uncompleted, s.silent, s.ring.posted);
    NewFrees(s.nextId, s.reqs.Keys, s.freed);
    NewThreads(s, s.nextId, q);
  }

  lemma AllocateCounts(s: State)
    requires Counts(s) && s.lookups > 0 && s.nextId !in s.reqs
    ensures Counts(Allocate(s))
  {
    assert s.reqs[s.nextId := FreshReq()].Keys == s.reqs.Keys + {s.nextId};
  }

  lemma GetReqKeeps(s: State)
    requires Inv(s) && s.lock.Free? && s.lookups > 0 && s.ring.nr > 0
    ensures Inv(DoGetReq(s))
  {
    hide Requests; hide Threads; hide Runners; hide Events; hide Frees; hide Avail; hide Room; hide LockOk; hide Allocate;
    if s.reqsActive < Avail(s.ring) {
      RoomForNew(s);
      AllocateKeeps(s);
    }
  }

  lemma FreshOk() returns (q: Req)
    ensures q == FreshReq() && ReqOk(q, true) && q.runners == {}
  {
    q := FreshReq();
  }

  lemma NewId(s: State)
    requires Inv(s)
    ensures s.nextId !in s.reqs && s.nextId !in s.uncompleted
  {
  }

  lemma NobodyAtNew(s: State)
    requires Inv(s)
    ensures forall t | t in s.runs :: s.runs[t].req != s.nextId
  {
    NewId(s);
  }

  lemma SubsetSmaller(a: set<Id>, b: set<Id>)
    requires a <= b
    ensures |a| <= |b|
  {
    if a != {} {
      var x :| x in a;
      SubsetSmaller(a - {x}, b - {x});
    }
  }

  lemma NewEvents(next: Id, unc: set<Id>, silent: set<Id>, posted: seq<Event>)
    requires Events(next, unc, silent, posted)
    ensures Events(next + 1, unc + {next}, silent, posted)
  {
  }

  lemma NewFrees(next: Id, ids: set<Id>, freed: seq<Id>)
    requires Frees(next, ids, freed)
    ensures Frees(next + 1, ids + {next}, freed)
  {
  }

  // a step that changes one request and no reference count
  lemma UpdateKeeps(s: State, id: Id, q: Req, runs': map<Tid, Run>)
    requires Inv(s) && id in s.reqs && ReqOk(q, id in s.uncompleted)
    requires Threads(s.reqs[id := q], runs', s.uncompleted) && Runners(s.reqs[id := q], runs')
    requires LockOk(WithReq(s, id, q).(runs := runs'))
    ensures Inv(WithReq(s, id, q).(runs := runs'))
  {
    hide ReqOk; hide Threads; hide Runners; hide Events; hide Frees; hide Room; hide LockOk;
    KeysSame(s.reqs, id, q);
  }

  lemma ReqHolds(s: State, id: Id)
    requires Inv(s) && id in s.reqs
    ensures ReqOk(s.reqs[id], id in s.uncompleted)
  {
    hide ReqOk; hide Threads; hide Runners; hide Events; hide Frees; hide Room; hide LockOk;
  }

  lemma RunHolds(s: State, t: Tid)
    requires Inv(s) && t in s.runs
    ensures s.runs[t].req in s.reqs && RunOk(s.reqs[s.runs[t].req], s.runs[t].req in s.uncompleted, t, s.runs[t].pc)
  {
    hide RunOk; hide Requests; hide Runners; hide Events; hide Frees; hide Room; hide LockOk;
  }

  // an update the threads do not notice
  lemma QuietKeeps(s: State, id: Id, q: Req)
    requires Inv(s) && id in s.reqs && ReqOk(q, id in s.uncompleted) && AlikeToRunners(s.reqs[id], q)
    requires s.lock.Free? || q.cancelled == s.reqs[id].cancelled
    ensures Inv(WithReq(s, id, q))
  {
    hide ReqOk; hide Threads; hide Runners; hide Events; hide Frees; hide Room;
    ThreadsUnmoved(s.reqs, s.runs, s.uncompleted, id, q);
    UpdateKeeps(s, id, q, s.runs);
  }

  // the same before a put
  lemma QuietOwes(s: State, id: Id, q: Req)
    requires Inv(s) && s.lock.Free? && id in s.reqs && AlikeToRunners(s.reqs[id], q)
    requires q.place == Place.Live && LiveOk(q.(users := q.users - 1), id in s.uncompleted)
    ensures Owing(s, id, q)
  {
    hide ReqOk; hide LiveOk; hide Threads; hide Runners; hide Events; hide Frees; hide Room;
    ThreadsUnmoved(s.reqs, s.runs, s.uncompleted, id, q);
  }

  lemma SubmitStepKeeps(s: State, step: Step)
    requires Inv(s) && RequestEnabled(s, step) && (step.FailFirstPut? || step.SubmitQueue? || step.SubmitPut?)
    ensures Inv(RequestApply(s, step))
  {
    hide Inv; hide Owing; hide PutReq; hide Threads; hide Runners; hide Events; hide Frees; hide Room;
    var id, q := step.id, s.reqs[step.id];
    ReqHolds(s, id);
    match step
    case FailFirstPut(_, last) =>
      QuietOwes(s, id, q.(submitter := Failing));
      PutKeeps(s, id, q.(submitter := Failing), last);
    case SubmitQueue(_) => QuietKeeps(s, id, q.(submitter := Queueing, link := Linked(Context)));
    case SubmitPut(_, last) =>
      QuietOwes(s, id, q.(submitter := Finished));
      PutKeeps(s, id, q.(submitter := Finished), last);
  }

  lemma KickStepKeeps(s: State, step: Step)
    requires Inv(s) && RequestEnabled(s, step) && (step.TryKick? || step.QueueKick?)
    ensures Inv(RequestApply(s, step))
  {
    hide Inv; hide Owing; hide PutReq; hide Threads; hide Runners; hide Events; hide Frees; hide Room;
    var id, q := step.id, s.reqs[step.id];
    ReqHolds(s, id);
    if step.QueueKick? {
      QuietKeeps(s, id, q.(kickers := q.kickers - 1, link := if q.link == Empty then Linked(Context) else q.link));
    } else if !q.kicked {
      QuietKeeps(s, id, q.(kicked := true, kickers := q.kickers + 1));
    }
  }

  lemma WakeKeeps(s: State, id: Id)
    requires Inv(s) && id in s.reqs && s.reqs[id].waiting
    ensures Inv(DoWake(s, id))
  {
    hide Inv; hide Owing; hide PutReq; hide Threads; hide Runners; hide Events; hide Frees; hide Room;
    ReqHolds(s, id);
    QuietKeeps(s, id, s.reqs[id].(waiting := false, wakers := s.reqs[id].wakers + 1));
  }

  lemma WakeKickKeeps(s: State, id: Id)
    requires Inv(s) && id in s.reqs && s.reqs[id].wakers > 0
    ensures Inv(DoWakeKick(s, id))
  {
    hide Inv; hide Owing; hide PutReq; hide Threads; hide Runners; hide Events; hide Frees; hide Room;
    var q := s.reqs[id];
    var q' := q.(wakers := q.wakers - 1, kicked := true, kickers := if q.kicked then q.kickers else q.kickers + 1);
    ReqHolds(s, id);
    QuietKeeps(s, id, q');
  }

  lemma CancelKeeps(s: State, id: Id, callback: bool, all: bool)
    requires Inv(s) && s.lock.Free? && InUse(s, id)
    ensures Inv(DoCancel(s, id, callback, all))
  {
    hide Inv; hide Owing; hide PutReq; hide Threads; hide Runners; hide Events; hide Frees; hide Room;
    ReqHolds(s, id);
    var q := DoCancel(s, id, callback, all).reqs[id];
    QuietKeeps(s, id, q);
  }

  lemma CancelPutKeeps(s: State, id: Id, last: bool)
    requires Inv(s) && s.lock.Free? && InUse(s, id) && s.reqs[id].cancels > 0
    ensures Inv(PutReq(s, id, s.reqs[id].(cancels := s.reqs[id].cancels - 1), last))
  {
    hide Inv; hide Owing; hide PutReq; hide Threads; hide Runners; hide Events; hide Frees; hide Room;
    ReqHolds(s, id);
    var q := s.reqs[id].(cancels := s.reqs[id].cancels - 1);
    QuietOwes(s, id, q);
    PutKeeps(s, id, q, last);
  }

  lemma FputTakeKeeps(s: State, id: Id)
    requires Inv(s) && id in s.reqs && s.reqs[id].place == Parked
    ensures Inv(WithReq(s, id, s.reqs[id].(place := Closing)))
  {
    hide Requests; hide Threads; hide Runners; hide Events; hide Frees; hide Room; hide RunOk;
    ReqHolds(s, id);
    var q := s.reqs[id].(place := Closing);
    NobodyRuns(s.reqs, s.runs, s.uncompleted, id);
    ThreadsAfter(s.reqs, s.runs, s.uncompleted, id, q, s.runs, s.uncompleted);
    UpdateKeeps(s, id, q, s.runs);
  }

  lemma Resting(s: State, id: Id)
    requires Inv(s) && id in s.reqs && s.reqs[id].place != Place.Live
    ensures s.reqs[id].runners == {} && id !in s.uncompleted
  {
    ReqHolds(s, id);
  }

  lemma FputFreeKeeps(s: State, id: Id)
    requires Inv(s) && s.lock.Free? && id in s.reqs && s.reqs[id].place == Closing
    ensures Inv(Release(s, id, s.reqs[id]).(puts := s.puts + 1))
  {
    hide Requests; hide Threads; hide Runners; hide Events; hide Frees; hide Room; hide MayComplete; hide ReqOk;
    Resting(s, id);
    KeysLess(s.reqs, id);
    assert (s.reqs - {id}).Keys == s.reqs.Keys - {id};
    FreeKeeps(s.nextId, s.reqs.Keys, s.freed, id);
    ThreadsWithout(s.reqs, s.runs, s.uncompleted, id);
    RequestsWithout(s.reqs, s.uncompleted, id);
  }

  lemma RequestsWithout(reqs: map<Id, Req>, unc: set<Id>, id: Id)
    requires Requests(reqs, unc)
    ensures Requests(reqs - {id}, unc)
  {
    hide ReqOk;
  }

  lemma ReadStepKeeps(s: State, step: Step)
    requires Inv(s) && ContextEnabled(s, step) && (step.ReadCopy? || step.ReadAcknowledge?)
    ensures Inv(ContextApply(s, step))
  {
    hide Requests; hide Threads; hide Runners; hide Events; hide Frees; hide AioRing.Inv;
    if step.ReadCopy? { CopyKeeps(s.ring); } else { AcknowledgeKeeps(s.ring); }
  }

  lemma SpliceKeeps(s: State, t: Tid)
    requires Inv(s) && s.lock.Free?
    ensures Inv(DoSplice(s, t))
  {
    hide Events; hide Frees; hide Room; hide Requests; hide Threads; hide Runners; hide MayComplete;
    assert DoSplice(s, t).reqs.Keys == s.reqs.Keys;
    SplicedRequests(s, t);
    SplicedThreads(s, t);
  }

  lemma SplicedRequests(s: State, t: Tid)
    requires Requests(s.reqs, s.uncompleted)
    ensures Requests(DoSplice(s, t).reqs, s.uncompleted)
  {
  }

  lemma SplicedThreads(s: State, t: Tid)
    requires Threads(s.reqs, s.runs, s.uncompleted) && Runners(s.reqs, s.runs)
    ensures Threads(DoSplice(s, t).reqs, s.runs, s.uncompleted) && Runners(DoSplice(s, t).reqs, s.runs)
  {
    var s' := DoSplice(s, t);
    forall u | u in s.runs
      ensures s.runs[u].req in s'.reqs && RunOk(s'.reqs[s.runs[u].req], s.runs[u].req in s.uncompleted, u, s.runs[u].pc)
    {
      assert RunOk(s.reqs[s.runs[u].req], s.runs[u].req in s.uncompleted, u, s.runs[u].pc);
    }
  }

  // ------------------------------------------------- retries and completion

  // at most one thread is inside aio_run_iocb for a request
  lemma OneRunner(s: State, t: Tid, u: Tid)
    requires Inv(s) && t in s.runs && u in s.runs && s.runs[t].req == s.runs[u].req
    ensures t == u
  {
    hide Requests; hide Threads; hide Runners; hide Events; hide Frees; hide Room; hide LockOk; hide Counts;
    RunHolds(s, t);
    RunHolds(s, u);
    ReqHolds(s, s.runs[t].req);
    SmallSet(s.reqs[s.runs[t].req].runners, t, u);
  }

  lemma SmallSet(a: set<Tid>, t: Tid, u: Tid)
    requires |a| <= 1 && t in a && u in a
    ensures t == u
  {
    if t != u {
      SubsetSmaller({t, u}, a);
    }
  }

  // thread t, alone on its request, changes the request to q and goes to pc
  lemma OwnMove(s: State, t: Tid, q: Req, pc: Pc, unc': set<Id>)
    requires Inv(s) && t in s.runs && s.runs[t].req in s.reqs
    requires RunOk(q, s.runs[t].req in unc', t, pc) && q.runners == s.reqs[s.runs[t].req].runners
    requires forall i | i in s.reqs && i != s.runs[t].req :: i in s.uncompleted <==> i in unc'
    ensures var id := s.runs[t].req; var runs' := s.runs[t := Run(id, pc)];
      Threads(s.reqs[id := q], runs', unc') && Runners(s.reqs[id := q], runs')
  {
    hide Requests; hide Threads; hide Events; hide Frees; hide Room; hide LockOk; hide Counts; hide RunOk;
    var id := s.runs[t].req;
    var runs' := s.runs[t := Run(id, pc)];
    forall u | u in runs' && runs'[u].req == id
      ensures RunOk(q, id in unc', u, runs'[u].pc)
    {
      OneRunner(s, t, u);
    }
    ThreadsAfter(s.reqs, s.runs, s.uncompleted, id, q, runs', unc');
  }

  lemma MoveKeeps(s: State, t: Tid, q: Req, pc: Pc)
    requires Inv(s) && t in s.runs && s.runs[t].req in s.reqs && (s.runs[t].pc == Unlocked || s.runs[t].pc.Retrying?)
    requires ReqOk(q, s.runs[t].req in s.uncompleted) && RunOk(q, s.runs[t].req in s.uncompleted, t, pc)
    requires var p := s.reqs[s.runs[t].req]; q.runners == p.runners && q.cancelled == p.cancelled && (p.handed ==> q.handed)
    ensures Inv(WithReq(s, s.runs[t].req, q).(runs := s.runs[t := Run(s.runs[t].req, pc)]))
  {
    hide Requests; hide Threads; hide Runners; hide Events; hide Frees; hide Room; hide Counts; hide ReqOk;
    OwnMove(s, t, q, pc, s.uncompleted);
    UpdateKeeps(s, s.runs[t].req, q, s.runs[t := Run(s.runs[t].req, pc)]);
  }

  lemma BeginRetryKeeps(s: State, t: Tid, outcome: Outcome)
    requires Inv(s) && t in s.runs && s.runs[t].pc == Unlocked && s.runs[t].req in s.reqs
    ensures Inv(DoBeginRetry(s, t, outcome))
  {
    hide Inv;
    var id := s.runs[t].req;
    var q := s.reqs[id];
    RunHolds(s, t);
    ReqHolds(s, id);
    if q.cancelled {
      MoveKeeps(s, t, q, Doomed);
      assert s.reqs[id := q] == s.reqs;
    } else {
      MoveKeeps(s, t, q.(handed := q.handed || outcome == Queued), Retrying(outcome));
    }
  }

  lemma QueueWaitKeeps(s: State, t: Tid)
    requires Inv(s) && t in s.runs && s.runs[t].pc == Retrying(Again) && s.runs[t].req in s.reqs
    ensures Inv(DoQueueWait(s, t))
  {
    hide Inv; hide Owing; hide PutReq; hide Threads; hide Runners; hide Events; hide Frees; hide Room;
    ReqHolds(s, s.runs[t].req);
    RunHolds(s, t);
    QuietKeeps(s, s.runs[t].req, s.reqs[s.runs[t].req].(waiting := true));
  }

  lemma RetryReturnKeeps(s: State, t: Tid)
    requires Inv(s) && t in s.runs && s.runs[t].pc.Retrying? && s.runs[t].req in s.reqs
    ensures Inv(DoRetryReturn(s, t))
  {
    hide Inv;
    var id := s.runs[t].req;
    var q := s.reqs[id];
    RunHolds(s, t);
    ReqHolds(s, id);
    if s.runs[t].pc.o == Again {
      MoveKeeps(s, t, q.(kicked := q.kicked || !q.waiting), Returned(Again));
    } else {
      MoveKeeps(s, t, q, if s.runs[t].pc.o == Final then Completing else Returned(Queued));
      assert s.reqs[id := q] == s.reqs;
    }
  }

  // a thread enters aio_run_iocb for a request taken off its list
  lemma EnterKeeps(s: State, t: Tid, id: Id, q: Req)
    requires Inv(s) && s.lock.Free? && t !in s.runs && id in s.reqs && s.reqs[id].runners == {}
    requires ReqOk(q, id in s.uncompleted) && RunOk(q, id in s.uncompleted, t, Unlocked) && q.runners == {t}
    ensures Inv(WithReq(s, id, q).(runs := s.runs[t := Run(id, Unlocked)]))
  {
    hide Requests; hide Threads; hide Runners; hide Events; hide Frees; hide Room; hide Counts; hide RunOk; hide ReqOk;
    var runs' := s.runs[t := Run(id, Unlocked)];
    NobodyRuns(s.reqs, s.runs, s.uncompleted, id);
    ThreadsAfter(s.reqs, s.runs, s.uncompleted, id, q, runs', s.uncompleted);
    UpdateKeeps(s, id, q, runs');
  }

  lemma RunStartKeeps(s: State, t: Tid, id: Id, last: bool)
    requires Inv(s) && s.lock.Free? && t !in s.runs && InUse(s, id) && s.reqs[id].link.Linked?
    ensures Inv(DoRunStart(s, t, id, last))
  {
    hide Inv; hide Owing; hide PutReq; hide Threads; hide Runners; hide Events; hide Frees; hide Room;
    ReqHolds(s, id);
    var q := s.reqs[id].(users := s.reqs[id].users + 1, retried := s.reqs[id].retried + 1);
    if s.reqs[id].retried > MAX_RETRIES {
      QuietOwes(s, id, q.(link := Capped));
      PutKeeps(s, id, q.(link := Capped), last);
    } else {
      EnterKeeps(s, t, id, q.(kicked := false, link := Null, runners := {t}));
    }
  }

  // the only thread inside aio_run_iocb for a request leaves it
  lemma LeaveOwes(s: State, t: Tid, q: Req)
    requires Inv(s) && s.lock.Free? && t in s.runs && s.runs[t].req in s.reqs && q.runners == {}
    requires q.place == Place.Live && LiveOk(q.(users := q.users - 1), s.runs[t].req in s.uncompleted)
    ensures Owing(s.(runs := s.runs - {t}), s.runs[t].req, q)
  {
    hide ReqOk; hide LiveOk; hide Threads; hide Runners; hide Events; hide Frees; hide Room; hide RunOk;
    var id, runs' := s.runs[t].req, s.runs - {t};
    forall u | u in runs'
      ensures runs'[u].req != id
    {
      if runs'[u].req == id { OneRunner(s, t, u); }
    }
    ThreadsAfter(s.reqs, s.runs, s.uncompleted, id, q, runs', s.uncompleted);
  }

  lemma RunFinishKeeps(s: State, t: Tid, last: bool)
    requires Inv(s) && s.lock.Free? && t in s.runs && s.runs[t].pc.Returned? && s.runs[t].req in s.reqs
    ensures Inv(DoRunFinish(s, t, last))
  {
    hide Inv; hide Owing; hide PutReq; hide Threads; hide Runners; hide Events; hide Frees; hide Room;
    var id := s.runs[t].req;
    RunHolds(s, t);
    ReqHolds(s, id);
    Alone(s, t);
    var q := s.reqs[id].(runners := s.reqs[id].runners - {t});
    var link := if s.runs[t].pc.o != Again then q.link else if q.kicked then Linked(Context) else Empty;
    LeaveOwes(s, t, q.(link := link));
    PutKeeps(s.(runs := s.runs - {t}), id, q.(link := link), last);
  }

  lemma Alone(s: State, t: Tid)
    requires Inv(s) && t in s.runs && s.runs[t].req in s.reqs
    ensures s.reqs[s.runs[t].req].runners == {t}
  {
    hide Requests; hide Threads; hide Runners; hide Events; hide Frees; hide Room; hide LockOk; hide Counts;
    RunHolds(s, t);
    ReqHolds(s, s.runs[t].req);
    forall u | u in s.reqs[s.runs[t].req].runners
      ensures u == t
    {
      SmallSet(s.reqs[s.runs[t].req].runners, t, u);
    }
  }

  // what aio_complete may rely on about the request it is called for
  lemma Completable(s: State, who: Who, id: Id)
    requires Inv(s) && MayComplete(s, who, id)
    ensures var q := s.reqs[id]; id in s.uncompleted && q.link == Null && LiveOk(q.(users := q.users - 1, handed := false), false)
  {
    hide Requests; hide Threads; hide Runners; hide Events; hide Frees; hide Room; hide LockOk; hide Counts;
    ReqHolds(s, id);
    if who.Runner? { RunHolds(s, who.t); }
  }

  lemma CompleteThreads(s: State, who: Who, id: Id, q: Req)
    requires Inv(s) && MayComplete(s, who, id) && q == s.reqs[id].(handed := false)
    ensures Threads(s.reqs[id := q], Completer(s, who, id).runs, s.uncompleted - {id})
    ensures Runners(s.reqs[id := q], Completer(s, who, id).runs)
  {
    hide Requests; hide Threads; hide Runners; hide Events; hide Frees; hide Room; hide LockOk; hide Counts;
    ReqHolds(s, id);
    match who
    case Runner(t) =>
      RunHolds(s, t);
      OwnMove(s, t, q, Returned(Final), s.uncompleted - {id});
    case Driver =>
      forall t | t in s.runs && s.runs[t].req == id
        ensures RunOk(q, false, t, s.runs[t].pc)
      {
        RunHolds(s, t);
      }
      RunnersOf(s, id);
      ThreadsAfter(s.reqs, s.runs, s.uncompleted, id, q, s.runs, s.uncompleted - {id});
  }

  lemma RunnersOf(s: State, id: Id)
    requires Inv(s) && id in s.reqs
    ensures forall t | t in s.reqs[id].runners :: t in s.runs && s.runs[t].req == id
  {
    hide Requests; hide Threads; hide Events; hide Frees; hide Room; hide LockOk; hide Counts;
  }

  // the i/o reference is dropped, after an event (ring') or silently (silent')
  lemma CompleteKeeps(s: State, who: Who, id: Id, silent': set<Id>, ring': Ring, last: bool)
    requires Inv(s) && MayComplete(s, who, id) && Room(ring', s.uncompleted - {id})
    requires Events(s.nextId, s.uncompleted - {id}, silent', ring'.posted)
    ensures Inv(Complete(s.(silent := silent', ring := ring', lock := Free), who, id, s.reqs[id], last))
  {
    hide Threads; hide Runners; hide Events; hide Frees; hide Room; hide LockOk; hide ReqOk; hide LiveOk; hide PutReq;
    Completable(s, who, id);
    var q := s.reqs[id].(handed := false);
    CompleteThreads(s, who, id, q);
    var s' := Completer(s.(silent := silent', ring := ring', lock := Free), who, id).(uncompleted := s.uncompleted - {id});
    assert s'.runs == Completer(s, who, id).runs;
    PutKeeps(s', id, q, last);
  }

  lemma SilentEvents(next: Id, unc: set<Id>, silent: set<Id>, posted: seq<Event>, id: Id)
    requires Events(next, unc, silent, posted) && id in unc
    ensures Events(next, unc - {id}, silent + {id}, posted)
  {
  }

  lemma PostedEvents(next: Id, unc: set<Id>, silent: set<Id>, posted: seq<Event>, e: Event)
    requires Events(next, unc, silent, posted) && e.req in unc
    ensures Events(next, unc - {e.req}, silent, posted + [e])
  {
    var posted' := posted + [e];
    forall id | 0 <= id < next
      ensures id in unc - {e.req} || id in silent || Posted(posted', id)
    {
      if id == e.req { assert posted'[|posted|].req == id; }
      else if Posted(posted, id) {
        var i :| 0 <= i < |posted| && posted[i].req == id;
        assert posted'[i].req == id;
      }
    }
  }

  lemma CompleteWriteKeeps(s: State, who: Who, id: Id, res: int, last: bool)
    requires Inv(s) && s.lock.Free? && MayComplete(s, who, id) && s.ring.tail < |s.ring.slots|
    ensures Inv(DoCompleteWrite(s, who, id, res, last))
  {
    hide Requests; hide Threads; hide Runners; hide Events; hide Frees; hide AioRing.Inv; hide LiveOk; hide Complete;
    Completable(s, who, id);
    var q := s.reqs[id];
    assert s.reqs[id := q] == s.reqs;
    if q.cancelled {
      SilentEvents(s.nextId, s.uncompleted, s.silent, s.ring.posted, id);
      CompleteKeeps(s, who, id, s.silent + {id}, s.ring, last);
    } else {
      WriteKeeps(s.ring, Event(id, res));
    }
  }

  lemma CompletePublishKeeps(s: State, last: bool)
    requires Inv(s) && s.lock.Held? && s.lock.req in s.reqs && s.ring.nr > 0
    ensures Inv(DoCompletePublish(s, last))
  {
    hide Requests; hide Threads; hide Runners; hide Events; hide Frees; hide AioRing.Inv; hide Counts; hide Complete;
    hide MayComplete;
    var id := s.lock.req;
    PublishKeeps(s.ring, s.lock.event);
    PostedEvents(s.nextId, s.uncompleted, s.silent, s.ring.posted, s.lock.event);
    CompleteKeeps(s, s.lock.who, id, s.silent, Publish(s.ring, s.lock.event), last);
  }

  lemma FailSecondPutKeeps(s: State, id: Id, last: bool)
    requires Inv(s) && s.lock.Free? && InUse(s, id) && s.reqs[id].submitter == Failing
    ensures Inv(DoFailSecondPut(s, id, last))
  {
    hide Threads; hide Runners; hide Events; hide Frees; hide AioRing.Inv; hide PutReq;
    ReqHolds(s, id);
    var q := s.reqs[id].(submitter := Finished);
    var unc := s.uncompleted - {id};
    SilentEvents(s.nextId, s.uncompleted, s.silent, s.ring.posted, id);
    NobodyRuns(s.reqs, s.runs, s.uncompleted, id);
    ThreadsAfter(s.reqs, s.runs, s.uncompleted, id, q, s.runs, unc);
    PutKeeps(s.(uncompleted := unc, silent := s.silent + {id}), id, q, last);
  }

  // ------------------------------------------------------------ whole runs

  lemma ContextStepKeeps(s: State, step: Step)
    requires Inv(s) && ContextEnabled(s, step)
    ensures Inv(ContextApply(s, step))
  {
    hide Inv; hide DoGetReq; hide DoSplice; hide DoDestroy; hide DoStaleKick; hide GetIoctx; hide PutIoctx; hide Copy; hide Acknowledge;
    match step
    case GetReq => GetReqKeeps(s);
    case Splice(t) => SpliceKeeps(s, t);
    case ReadCopy => ReadStepKeeps(s, step);
    case ReadAcknowledge => ReadStepKeeps(s, step);
    case _ => CountStepKeeps(s, step);
  }

  lemma RequestStepKeeps(s: State, step: Step)
    requires Inv(s) && RequestEnabled(s, step)
    ensures Inv(RequestApply(s, step))
  {
    hide Inv; hide PutReq; hide DoRunStart; hide DoBeginRetry; hide DoRetryReturn; hide DoFailSecondPut;
    hide DoRunFinish; hide DoCompleteWrite; hide DoCompletePublish; hide DoTryKick; hide DoQueueKick; hide DoCancel;
    hide DoWake; hide DoWakeKick; hide DoQueueWait; hide Release; hide WithReq; hide MayComplete;
    match step
    case FailSecondPut(id, last) => FailSecondPutKeeps(s, id, last);
    case FailFirstPut(_, _) => SubmitStepKeeps(s, step);
    case SubmitQueue(_) => SubmitStepKeeps(s, step);
    case SubmitPut(_, _) => SubmitStepKeeps(s, step);
    case RunStart(t, id, last) => RunStartKeeps(s, t, id, last);
    case BeginRetry(t, outcome) => BeginRetryKeeps(s, t, outcome);
    case QueueWait(t) => QueueWaitKeeps(s, t);
    case RetryReturn(t) => RetryReturnKeeps(s, t);
    case RunFinish(t, last) => RunFinishKeeps(s, t, last);
    case CompleteWrite(who, id, res, last) => CompleteWriteKeeps(s, who, id, res, last);
    case CompletePublish(last) => CompletePublishKeeps(s, last);
    case Wake(id) => WakeKeeps(s, id);
    case WakeKick(id) => WakeKickKeeps(s, id);
    case TryKick(_) => KickStepKeeps(s, step);
    case QueueKick(_) => KickStepKeeps(s, step);
    case Cancel(id, callback) => CancelKeeps(s, id, callback, false);
    case CancelAll(id, callback) => CancelKeeps(s, id, callback, true);
    case CancelPut(id, last) => CancelPutKeeps(s, id, last);
    case FputTake(id) => FputTakeKeeps(s, id);
    case FputFree(id) => FputFreeKeeps(s, id);
  }

  lemma StepKeeps(s: State, step: Step)
    requires Inv(s) && Enabled(s, step)
    ensures Inv(Apply(s, step))
  {
    hide Inv; hide ContextEnabled; hide RequestEnabled; hide ContextApply; hide RequestApply;
    if OfContext(step) { ContextStepKeeps(s, step); } else { RequestStepKeeps(s, step); }
  }

  lemma SetupKeeps(slots: seq<Event>)
    requires |slots| > 0
    ensures Inv(Setup(slots))
  {
  }

  // every step of the list is enabled where it is taken
  ghost predicate Runnable(s: State, steps: seq<Step>)
    decreases |steps|
  {
    steps == [] || (Enabled(s, steps[0]) && Runnable(Apply(s, steps[0]), steps[1..]))
  }

  ghost function After(s: State, steps: seq<Step>): State
    requires Runnable(s, steps)
    decreases |steps|
  {
    if steps == [] then s else After(Apply(s, steps[0]), steps[1..])
  }

  lemma {:induction false} RunKeeps(s: State, steps: seq<Step>)
    requires Inv(s) && Runnable(s, steps)
    ensures Inv(After(s, steps))
    decreases |steps|
  {
    hide Inv; hide Apply; hide Enabled;
    if steps != [] {
      StepKeeps(s, steps[0]);
      RunKeeps(Apply(s, steps[0]), steps[1..]);
    }
  }

  // s is reached by some interleaving of steps on a new context
  ghost predicate Reachable(s: State, slots: seq<Event>, steps: seq<Step>) {
    |slots| > 0 && Runnable(Setup(slots), steps) && s == After(Setup(slots), steps)
  }

  lemma ReachableInv(s: State, slots: seq<Event>, steps: seq<Step>)
    requires Reachable(s, slots, steps)
    ensures Inv(s)
  {
    hide Inv; hide Setup;
    SetupKeeps(slots);
    RunKeeps(Setup(slots), steps);
  }

  // ----------------------------------------------------- what every run keeps

  // at most one retry of a request is in progress
  lemma OneRetryAtATime(s: State, slots: seq<Event>, steps: seq<Step>, t: Tid, u: Tid)
    requires Reachable(s, slots, steps) && t in s.runs && u in s.runs && s.runs[t].req == s.runs[u].req
    ensures t == u
  {
    hide *;
    ReachableInv(s, slots, steps);
    OneRunner(s, t, u);
  }

  predicate OnRunList(q: Req) {
    q.link.Linked?
  }

  // inside aio_run_iocb, with ctx_lock released
  predicate BeingRun(s: State, id: Id) {
    exists t | t in s.runs :: s.runs[t].req == id
  }

  // A kick of an uncompleted request is never lost: once its kicker is done and while
  // no thread runs the request, it is on a run list - exactly unless it hit the retry
  // limit, or a driver holds it and will complete it.
  lemma KickNotLost(s: State, slots: seq<Event>, steps: seq<Step>, id: Id)
    requires Reachable(s, slots, steps) && id in s.uncompleted && id in s.reqs
    requires s.reqs[id].kicked && s.reqs[id].kickers == 0
    ensures !BeingRun(s, id) ==> (OnRunList(s.reqs[id]) <==> s.reqs[id].link != Capped && !s.reqs[id].handed)
    ensures s.reqs[id].link == Capped ==> s.reqs[id].retried > MAX_RETRIES
  {
    hide *;
    ReachableInv(s, slots, steps);
    KickState(s, id);
  }

  lemma KickState(s: State, id: Id)
    requires Inv(s) && id in s.uncompleted && id in s.reqs
    requires s.reqs[id].kicked && s.reqs[id].kickers == 0
    ensures !BeingRun(s, id) ==> (OnRunList(s.reqs[id]) <==> s.reqs[id].link != Capped && !s.reqs[id].handed)
    ensures s.reqs[id].link == Capped ==> s.reqs[id].retried > MAX_RETRIES
  {
    hide Inv; hide Requests; hide Threads; hide Runners;
    ReqHolds(s, id);
    RunnersOf(s, id);
    if s.reqs[id].runners != {} {
      var t :| t in s.reqs[id].runners;
      assert s.runs[t].req == id;
    }
  }

  // No request is forgotten: while it is uncompleted it is on a run list, being run,
  // over the retry limit, in the hands of a driver, or a wake-up or kick is due.
  lemma NothingStranded(s: State, slots: seq<Event>, steps: seq<Step>, id: Id)
    requires Reachable(s, slots, steps) && id in s.uncompleted && Submitted(s, id)
    ensures var q := s.reqs[id];
      OnRunList(q) || BeingRun(s, id) || q.link == Capped || q.handed || q.waiting || q.wakers > 0 || q.kickers > 0
  {
    hide *;
    ReachableInv(s, slots, steps);
    NotStranded(s, id);
  }

  lemma NotStranded(s: State, id: Id)
    requires Inv(s) && id in s.uncompleted && Submitted(s, id)
    ensures var q := s.reqs[id];
      OnRunList(q) || BeingRun(s, id) || q.link == Capped || q.handed || q.waiting || q.wakers > 0 || q.kickers > 0
  {
    hide Inv; hide Requests; hide Threads; hide Runners;
    ReqHolds(s, id);
    RunnersOf(s, id);
    if s.reqs[id].runners != {} {
      var t :| t in s.reqs[id].runners;
      assert s.runs[t].req == id;
    }
  }

  // below the limit and while no driver holds the request, the flag means what the
  // kick code takes it to mean
  lemma KickedMeansPending(s: State, slots: seq<Event>, steps: seq<Step>, id: Id)
    requires Reachable(s, slots, steps) && id in s.uncompleted && id in s.reqs && s.reqs[id].kicked
    requires s.reqs[id].retried <= MAX_RETRIES && !s.reqs[id].handed
    ensures OnRunList(s.reqs[id]) || BeingRun(s, id) || s.reqs[id].kickers > 0
  {
    if s.reqs[id].kickers == 0 {
      hide *;
      KickNotLost(s, slots, steps, id);
    }
  }

  lemma {:induction false} Extended(s: State, steps: seq<Step>, step: Step)
    requires Runnable(s, steps) && Enabled(After(s, steps), step)
    ensures Runnable(s, steps + [step]) && After(s, steps + [step]) == Apply(After(s, steps), step)
    decreases |steps|
  {
    hide Enabled; hide Apply;
    if steps == [] {
      assert ([step])[1..] == [];
      assert steps + [step] == [step];
    } else {
      Extended(Apply(s, steps[0]), steps[1..], step);
      assert (steps + [step])[1..] == steps[1..] + [step];
    }
  }

  const TWO_SLOTS := [Event(0, 0), Event(0, 0)]

  // a context with one request, 0, whose contents are q
  ghost function OneRequest(q: Req, runs: map<Tid, Run>): State {
    Setup(TWO_SLOTS).(users := 3, lookups := 1, reqsActive := 1, reqs := map[0 := q], runs := runs, nextId := 1, uncompleted := {0})
  }

  lemma Allocation() returns (steps: seq<Step>)
    ensures Reachable(OneRequest(FreshReq(), map[]), TWO_SLOTS, steps)
  {
    var s0 := Setup(TWO_SLOTS);
    var s1 := Apply(s0, Lookup);
    var s2 := Apply(s1, GetReq);
    assert s2 == OneRequest(FreshReq(), map[]);
    hide Apply; hide Enabled; hide OneRequest;
    Extended(s0, [], Lookup);
    Extended(s0, [] + [Lookup], GetReq);
    steps := [] + [Lookup] + [GetReq];
  }

  lemma SubmitQueued() returns (steps: seq<Step>)
    ensures Reachable(OneRequest(FreshReq().(submitter := Queueing, link := Linked(Context)), map[]), TWO_SLOTS, steps)
  {
    var before := Allocation();
    var s0 := Setup(TWO_SLOTS);
    var s3 := Apply(After(s0, before), SubmitQueue(0));
    assert s3.reqs == map[0 := FreshReq().(submitter := Queueing, link := Linked(Context))];
    hide Apply; hide Enabled; hide OneRequest;
    Extended(s0, before, SubmitQueue(0));
    steps := before + [SubmitQueue(0)];
  }

  lemma Submission() returns (steps: seq<Step>)
    ensures Reachable(OneRequest(FreshReq().(submitter := Queueing, link := Linked(Private(1))), map[]), TWO_SLOTS, steps)
  {
    var before := SubmitQueued();
    var s0 := Setup(TWO_SLOTS);
    var s4 := Apply(After(s0, before), Splice(1));
    assert s4.reqs == map[0 := FreshReq().(submitter := Queueing, link := Linked(Private(1)))];
    hide Apply; hide Enabled; hide OneRequest;
    Extended(s0, before, Splice(1));
    steps := before + [Splice(1)];
  }

  // the contents of the request while thread 1 runs a retry that hands it over
  ghost function InRetry(): Req {
    FreshReq().(users := 3, submitter := Queueing, retried := 1, runners := {1}, handed := true)
  }

  lemma Started() returns (steps: seq<Step>)
    ensures Reachable(OneRequest(InRetry().(handed := false), map[1 := Run(0, Unlocked)]), TWO_SLOTS, steps)
  {
    var before := Submission();
    var s0 := Setup(TWO_SLOTS);
    var s5 := Apply(After(s0, before), RunStart(1, 0, false));
    assert s5.reqs[0].runners == {1};
    assert s5.reqs == map[0 := InRetry().(handed := false)];
    hide Apply; hide Enabled; hide OneRequest;
    Extended(s0, before, RunStart(1, 0, false));
    steps := before + [RunStart(1, 0, false)];
  }

  lemma FirstRetry() returns (steps: seq<Step>)
    ensures Reachable(OneRequest(InRetry(), map[1 := Run(0, Retrying(Queued))]), TWO_SLOTS, steps)
  {
    var before := Started();
    var s0 := Setup(TWO_SLOTS);
    var s6 := Apply(After(s0, before), BeginRetry(1, Queued));
    assert s6.reqs == map[0 := InRetry()];
    assert s6.runs == map[1 := Run(0, Retrying(Queued))];
    hide Apply; hide Enabled; hide OneRequest;
    Extended(s0, before, BeginRetry(1, Queued));
    steps := before + [BeginRetry(1, Queued)];
  }

  lemma HandedOver() returns (steps: seq<Step>)
    ensures Reachable(OneRequest(InRetry(), map[1 := Run(0, Returned(Queued))]), TWO_SLOTS, steps)
  {
    var before := FirstRetry();
    var s0 := Setup(TWO_SLOTS);
    var s7 := Apply(After(s0, before), RetryReturn(1));
    assert s7.runs == map[1 := Run(0, Returned(Queued))];
    hide Apply; hide Enabled; hide OneRequest;
    Extended(s0, before, RetryReturn(1));
    steps := before + [RetryReturn(1)];
  }

  lemma Handover() returns (steps: seq<Step>)
    ensures Reachable(OneRequest(InRetry().(users := 2, runners := {}), map[]), TWO_SLOTS, steps)
  {
    var before := HandedOver();
    var s0 := Setup(TWO_SLOTS);
    var s8 := Apply(After(s0, before), RunFinish(1, false));
    assert s8.runs == map[];
    assert s8.reqs[0].runners == {};
    assert s8.reqs == map[0 := InRetry().(users := 2, runners := {})];
    hide Apply; hide Enabled; hide OneRequest;
    Extended(s0, before, RunFinish(1, false));
    steps := before + [RunFinish(1, false)];
  }

  // Without the exception the claim is false: a request handed to a driver keeps its
  // run list links NULL, so a kick sets the flag and queues nothing.
  lemma KickAfterHandover() returns (s: State, steps: seq<Step>)
    ensures Reachable(s, TWO_SLOTS, steps) && 0 in s.uncompleted && 0 in s.reqs
    ensures s.reqs[0].kicked && s.reqs[0].kickers == 0 && s.reqs[0].retried == 1
    ensures !OnRunList(s.reqs[0]) && !BeingRun(s, 0)
  {
    var before := KickBegun();
    var s0 := Setup(TWO_SLOTS);
    s := Apply(After(s0, before), QueueKick(0));
    hide Apply; hide Enabled;
    Extended(s0, before, QueueKick(0));
    steps := before + [QueueKick(0)];
  }

  // the contents of the request with a kick in flight and the submitter gone
  ghost function InFlight(): Req {
    InRetry().(users := 1, runners := {}, submitter := Finished, kicked := true, kickers := 1)
  }

  lemma KickBegun() returns (steps: seq<Step>)
    ensures Reachable(OneRequest(InFlight().(users := 2, submitter := Queueing), map[]), TWO_SLOTS, steps)
  {
    var before := Handover();
    var s0 := Setup(TWO_SLOTS);
    var s8 := After(s0, before);
    assert s8.reqs[0].(kicked := true, kickers := 1) == InFlight().(users := 2, submitter := Queueing);
    var s9 := Apply(s8, TryKick(0));
    assert s9.reqs == map[0 := InFlight().(users := 2, submitter := Queueing)];
    hide Apply; hide Enabled; hide OneRequest;
    Extended(s0, before, TryKick(0));
    steps := before + [TryKick(0)];
  }

  lemma SubmitterGone() returns (steps: seq<Step>)
    ensures Reachable(OneRequest(InFlight(), map[]), TWO_SLOTS, steps)
  {
    var before := KickBegun();
    var s0 := Setup(TWO_SLOTS);
    var s10 := Apply(After(s0, before), SubmitPut(0, false));
    assert s10.reqs == map[0 := InFlight()];
    hide Apply; hide Enabled; hide OneRequest;
    Extended(s0, before, SubmitPut(0, false));
    steps := before + [SubmitPut(0, false)];
  }

  // the same with the event stored and ctx_lock held
  ghost function Storing(): State {
    OneRequest(InFlight(), map[]).(ring := Write(AioRing.Setup(TWO_SLOTS), Event(0, 0)), lock := Held(Driver, 0, Event(0, 0)))
  }

  lemma EventStored() returns (steps: seq<Step>)
    ensures Reachable(Storing(), TWO_SLOTS, steps)
  {
    var before := SubmitterGone();
    var s0 := Setup(TWO_SLOTS);
    var s11 := Apply(After(s0, before), CompleteWrite(Driver, 0, 0, false));
    assert s11.reqs == map[0 := InFlight()];
    hide Apply; hide Enabled; hide OneRequest;
    Extended(s0, before, CompleteWrite(Driver, 0, 0, false));
    steps := before + [CompleteWrite(Driver, 0, 0, false)];
  }

  lemma Freed(s: State)
    requires s == Storing()
    ensures Enabled(s, CompletePublish(false))
    ensures var s' := Apply(s, CompletePublish(false)); s'.freed == [0] && s'.stray[0] == 1 && s'.lock.Free?
  {
  }

  // A kick holds no reference: a request can be completed and freed between the
  // test-and-set of a kick and its queue_kicked_iocb.
  lemma KickOutlivesRequest() returns (s: State, steps: seq<Step>)
    ensures Reachable(s, TWO_SLOTS, steps) && s.freed == [0] && 0 in s.stray && Enabled(s, StaleKick(0))
  {
    hide Apply; hide Storing; hide RequestEnabled; hide Setup; hide Runnable; hide After;
    var before := EventStored();
    var s0 := Setup(TWO_SLOTS);
    Freed(After(s0, before));
    s := Apply(After(s0, before), CompletePublish(false));
    Extended(s0, before, CompletePublish(false));
    steps := before + [CompletePublish(false)];
  }

  // what a put changes of the requests, and what it leaves alone
  lemma PutFrame(s: State, id: Id, q: Req, last: bool)
    ensures var s', q' := PutReq(s, id, q, last), q.(users := q.users - 1);
      && s'.reqs == (if q'.users != 0 then s.reqs[id := q']
                     else if last then s.reqs[id := q'.(active := false, place := Parked)]
                     else s.reqs - {id})
      && s'.ring == s.ring && s'.uncompleted == s.uncompleted && s'.nextId == s.nextId
  {
  }

  // Off all lists with the only kick in flight, or over the retry limit: nobody can run
  // or complete the request before the kick goes on.
  ghost predicate Pinned(s: State, id: Id) {
    && Submitted(s, id) && id in s.uncompleted
    && (s.reqs[id].link == Capped || (s.reqs[id].link == Empty && s.reqs[id].kicked && s.reqs[id].kickers == 1))
  }

  // no thread, driver or completion has to do with request id
  ghost predicate LeftAlone(s: State, id: Id) {
    && Submitted(s, id) && (s.reqs[id].link == Capped || (s.reqs[id].link == Empty && s.reqs[id].kicked && s.reqs[id].kickers == 1))
    && !s.reqs[id].handed && (forall t | t in s.runs :: s.runs[t].req != id) && (s.lock.Held? ==> s.lock.req != id)
  }

  // what a step of others leaves alone
  ghost predicate Untouched(s: State, s': State, id: Id)
    requires id in s.reqs
  {
    && (id in s.uncompleted ==> id in s'.uncompleted)
    && (id in s'.reqs ==>
        && s'.reqs[id].link == s.reqs[id].link && (s.reqs[id].link == Empty ==> s'.reqs[id].kickers == s.reqs[id].kickers)
        && (s.reqs[id].kicked ==> s'.reqs[id].kicked)
        && (s'.reqs[id].submitter == s.reqs[id].submitter || s'.reqs[id].submitter == Finished))
  }

  lemma PinnedAlone(s: State, id: Id)
    requires Inv(s) && Pinned(s, id)
    ensures LeftAlone(s, id)
  {
    hide Requests; hide Threads; hide Runners; hide Events; hide Frees; hide Room; hide Counts; hide RunOk;
    ReqHolds(s, id);
    NobodyRuns(s.reqs, s.runs, s.uncompleted, id);
  }

  lemma PutTouches(s: State, s0: State, k: Id, q: Req, last: bool, id: Id)
    requires s0.reqs == s.reqs && id in s.reqs && k in s.reqs && (id in s.uncompleted ==> id in s0.uncompleted)
    requires id == k ==> q.link == s.reqs[id].link && q.kickers == s.reqs[id].kickers && q.kicked == s.reqs[id].kicked
                         && (q.submitter == s.reqs[id].submitter || q.submitter == Finished)
    ensures Untouched(s, PutReq(s0, k, q, last), id)
  {
    hide Untouched; hide PutReq;
    PutFrame(s0, k, q, last);
    var s', q' := PutReq(s0, k, q, last), q.(users := q.users - 1);
    if q'.users != 0 { UpdateTouches(s, s', k, q', id); }
    else if last { UpdateTouches(s, s', k, q'.(active := false, place := Parked), id); }
    else { ElseTouches(s, s', id); }
  }

  lemma RunStartTouches(s: State, t: Tid, k: Id, last: bool, id: Id)
    requires k in s.reqs && s.reqs[k].link.Linked? && LeftAlone(s, id)
    ensures Untouched(s, DoRunStart(s, t, k, last), id)
  {
    hide PutReq;
    var q := s.reqs[k];
    PutTouches(s, s, k, q.(users := q.users + 1, retried := q.retried + 1, link := Capped), last, id);
  }

  lemma RunFinishTouches(s: State, t: Tid, last: bool, id: Id)
    requires t in s.runs && s.runs[t].req in s.reqs && s.runs[t].pc.Returned? && LeftAlone(s, id)
    ensures Untouched(s, DoRunFinish(s, t, last), id)
  {
    hide PutReq; hide Untouched;
    var k := s.runs[t].req;
    var q := s.reqs[k].(runners := s.reqs[k].runners - {t});
    var link := if s.runs[t].pc.o != Again then q.link else if q.kicked then Linked(Context) else Empty;
    PutTouches(s, s.(runs := s.runs - {t}), k, q.(link := link), last, id);
  }

  lemma CompleteTouches(s: State, s0: State, who: Who, k: Id, q: Req, last: bool, id: Id)
    requires s0.reqs == s.reqs && s0.uncompleted == s.uncompleted && id in s.reqs && k in s.reqs && id != k
    ensures Untouched(s, Complete(s0, who, k, q, last), id)
  {
    hide PutReq; hide Untouched;
    PutTouches(s, Completer(s0, who, k).(uncompleted := s.uncompleted - {k}), k, q.(handed := false), last, id);
  }

  lemma CompleteWriteTouches(s: State, who: Who, k: Id, res: int, last: bool, id: Id)
    requires MayComplete(s, who, k) && s.ring.tail < |s.ring.slots| && LeftAlone(s, id)
    ensures Untouched(s, DoCompleteWrite(s, who, k, res, last), id)
  {
    hide Complete;
    assert k != id;
    var q := s.reqs[k].(link := if s.reqs[k].link.Linked? then Empty else s.reqs[k].link);
    CompleteTouches(s, s.(silent := s.silent + {k}), who, k, q, last, id);
  }

  lemma CompletePublishTouches(s: State, last: bool, id: Id)
    requires s.lock.Held? && s.lock.req in s.reqs && s.ring.nr > 0 && LeftAlone(s, id)
    ensures Untouched(s, DoCompletePublish(s, last), id)
  {
    hide Complete; hide Untouched;
    CompleteTouches(s, s.(ring := Publish(s.ring, s.lock.event), lock := Free), s.lock.who, s.lock.req, s.reqs[s.lock.req], last, id);
  }

  // a step that replaces the contents of request k
  lemma UpdateTouches(s: State, s': State, k: Id, q: Req, id: Id)
    requires id in s.reqs && k in s.reqs && s'.reqs == s.reqs[k := q] && (id in s.uncompleted ==> id in s'.uncompleted)
    requires id == k ==> q.link == s.reqs[id].link && (q.link == Empty ==> q.kickers == s.reqs[id].kickers)
                         && (s.reqs[id].kicked ==> q.kicked) && (q.submitter == s.reqs[id].submitter || q.submitter == Finished)
    ensures Untouched(s, s', id)
  {
  }

  lemma WakeTouches(s: State, k: Id, id: Id)
    requires k in s.reqs && id in s.reqs
    ensures Untouched(s, DoWake(s, k), id)
  {
    hide Untouched;
    UpdateTouches(s, DoWake(s, k), k, s.reqs[k].(waiting := false, wakers := s.reqs[k].wakers + 1), id);
  }

  lemma WakeKickTouches(s: State, k: Id, id: Id)
    requires k in s.reqs && s.reqs[k].wakers > 0 && LeftAlone(s, id)
    ensures Untouched(s, DoWakeKick(s, k), id)
  {
    hide LeftAlone; hide Untouched;
    Kicked(s, id);
    UpdateTouches(s, DoWakeKick(s, k), k, DoWakeKick(s, k).reqs[k], id);
  }

  lemma QueueKickTouches(s: State, k: Id, id: Id)
    requires k in s.reqs && s.reqs[k].kickers > 0 && LeftAlone(s, id) && (k == id ==> s.reqs[id].link == Capped)
    ensures Untouched(s, DoQueueKick(s, k), id)
  {
    hide LeftAlone; hide Untouched;
    Kicked(s, id);
    UpdateTouches(s, DoQueueKick(s, k), k, DoQueueKick(s, k).reqs[k], id);
  }

  lemma SubmitQueueTouches(s: State, k: Id, id: Id)
    requires k in s.reqs && s.reqs[k].submitter == Preparing && Submitted(s, id)
    ensures Untouched(s, WithReq(s, k, s.reqs[k].(submitter := Queueing, link := Linked(Context))), id)
  {
    hide Untouched;
    ElseTouches(s, WithReq(s, k, s.reqs[k].(submitter := Queueing, link := Linked(Context))), id);
  }

  lemma FputTakeTouches(s: State, k: Id, id: Id)
    requires k in s.reqs && id in s.reqs
    ensures Untouched(s, WithReq(s, k, s.reqs[k].(place := Closing)), id)
  {
    hide Untouched;
    UpdateTouches(s, WithReq(s, k, s.reqs[k].(place := Closing)), k, s.reqs[k].(place := Closing), id);
  }

  lemma QueueWaitTouches(s: State, t: Tid, id: Id)
    requires t in s.runs && s.runs[t].req in s.reqs && LeftAlone(s, id)
    ensures Untouched(s, DoQueueWait(s, t), id)
  {
    hide Untouched;
    ElseTouches(s, DoQueueWait(s, t), id);
  }

  lemma TryKickTouches(s: State, k: Id, id: Id)
    requires k in s.reqs && LeftAlone(s, id)
    ensures Untouched(s, DoTryKick(s, k), id)
  {
    hide LeftAlone; hide Untouched;
    Kicked(s, id);
    var q := s.reqs[k];
    if q.kicked { SameTouches(s, s, id); }
    else { UpdateTouches(s, DoTryKick(s, k), k, q.(kicked := true, kickers := q.kickers + 1), id); }
  }

  lemma Kicked(s: State, id: Id)
    requires LeftAlone(s, id)
    ensures Submitted(s, id) && (s.reqs[id].link == Capped || (s.reqs[id].link == Empty && s.reqs[id].kicked))
  {
  }

  lemma SameTouches(s: State, s': State, id: Id)
    requires id in s.reqs && s'.reqs == s.reqs && s'.uncompleted == s.uncompleted
    ensures Untouched(s, s', id)
  {
  }

  lemma SpliceTouches(s: State, t: Tid, id: Id)
    requires id in s.reqs && !s.reqs[id].link.Linked?
    ensures Untouched(s, DoSplice(s, t), id)
  {
  }

  lemma GetReqTouches(s: State, id: Id)
    requires id in s.reqs && s.nextId !in s.reqs && s.ring.nr > 0
    ensures Untouched(s, DoGetReq(s), id)
  {
    hide Avail;
  }

  // a step that is about other requests
  lemma ElseTouches(s: State, s': State, id: Id)
    requires id in s.reqs && (id in s'.reqs ==> s'.reqs[id] == s.reqs[id]) && (id in s.uncompleted ==> id in s'.uncompleted)
    ensures Untouched(s, s', id)
  {
  }

  lemma FputFreeTouches(s: State, k: Id, id: Id)
    requires id in s.reqs && k in s.reqs
    ensures Untouched(s, Release(s, k, s.reqs[k]).(puts := s.puts + 1), id)
  {
    ElseTouches(s, Release(s, k, s.reqs[k]).(puts := s.puts + 1), id);
  }

  lemma BeginRetryTouches(s: State, t: Tid, outcome: Outcome, id: Id)
    requires t in s.runs && s.runs[t].req in s.reqs && LeftAlone(s, id)
    ensures Untouched(s, DoBeginRetry(s, t, outcome), id)
  {
    hide Untouched;
    ElseTouches(s, DoBeginRetry(s, t, outcome), id);
  }

  lemma RetryReturnTouches(s: State, t: Tid, id: Id)
    requires t in s.runs && s.runs[t].req in s.reqs && s.runs[t].pc.Retrying? && LeftAlone(s, id)
    ensures Untouched(s, DoRetryReturn(s, t), id)
  {
    hide Untouched;
    ElseTouches(s, DoRetryReturn(s, t), id);
  }

  lemma CancelTouches(s: State, k: Id, callback: bool, all: bool, id: Id)
    requires k in s.reqs && id in s.reqs
    ensures Untouched(s, DoCancel(s, k, callback, all), id)
  {
    hide Untouched;
    UpdateTouches(s, DoCancel(s, k, callback, all), k, DoCancel(s, k, callback, all).reqs[k], id);
  }

  lemma FailSecondPutTouches(s: State, k: Id, last: bool, id: Id)
    requires k in s.reqs && s.reqs[k].submitter == Failing && Submitted(s, id)
    ensures Untouched(s, DoFailSecondPut(s, k, last), id)
  {
    hide PutReq; hide Untouched;
    PutTouches(s, s.(uncompleted := s.uncompleted - {k}, silent := s.silent + {k}), k, s.reqs[k].(submitter := Finished), last, id);
  }

  lemma ContextStepTouches(s: State, step: Step, id: Id)
    requires ContextEnabled(s, step) && LeftAlone(s, id) && s.nextId !in s.reqs
    ensures Untouched(s, ContextApply(s, step), id)
  {
    hide Untouched; hide LeftAlone; hide DoGetReq; hide DoSplice; hide CanCopy; hide Copy; hide Acknowledge;
    Kicked(s, id);
    if step.GetReq? { GetReqTouches(s, id); }
    else if step.Splice? { SpliceTouches(s, step.t, id); }
    else { SameTouches(s, ContextApply(s, step), id); }
  }

  // steps that change one request and drop no reference
  predicate Quiet(step: Step) {
    || step.SubmitQueue? || step.Wake? || step.WakeKick? || step.TryKick? || step.QueueKick? || step.Cancel? || step.CancelAll?
    || step.FputTake? || step.FputFree?
  }

  lemma QuietStepTouches(s: State, step: Step, id: Id)
    requires RequestEnabled(s, step) && Quiet(step) && LeftAlone(s, id) && (step == QueueKick(id) ==> s.reqs[id].link == Capped)
    ensures Untouched(s, RequestApply(s, step), id)
  {
    hide Untouched; hide LeftAlone; hide DoTryKick; hide DoCancel; hide DoWakeKick; hide Release; hide MayComplete; hide WithReq;
    hide DoWake; hide DoQueueKick;
    Kicked(s, id);
    if step.SubmitQueue? { SubmitQueueTouches(s, step.id, id); }
    else if step.Wake? { WakeTouches(s, step.id, id); }
    else if step.WakeKick? { WakeKickTouches(s, step.id, id); }
    else if step.TryKick? { TryKickTouches(s, step.id, id); }
    else if step.QueueKick? { QueueKickTouches(s, step.id, id); }
    else if step.FputTake? { FputTakeTouches(s, step.id, id); }
    else if step.FputFree? { FputFreeTouches(s, step.id, id); }
    else { CancelTouches(s, step.id, step.callback, step.CancelAll?, id); }
  }

  lemma PutStepTouches(s: State, step: Step, id: Id)
    requires RequestEnabled(s, step) && !Quiet(step) && LeftAlone(s, id)
    ensures Untouched(s, RequestApply(s, step), id)
  {
    hide Untouched; hide LeftAlone; hide PutReq; hide DoRunStart; hide DoBeginRetry; hide DoRetryReturn; hide DoFailSecondPut;
    hide DoRunFinish; hide DoCompleteWrite; hide DoCompletePublish; hide MayComplete; hide DoQueueWait;
    Kicked(s, id);
    match step
    case FailFirstPut(k, last) => PutTouches(s, s, k, s.reqs[k].(submitter := Failing), last, id);
    case FailSecondPut(k, last) => FailSecondPutTouches(s, k, last, id);
    case SubmitPut(k, last) => PutTouches(s, s, k, s.reqs[k].(submitter := Finished), last, id);
    case RunStart(t, k, last) => RunStartTouches(s, t, k, last, id);
    case BeginRetry(t, outcome) => BeginRetryTouches(s, t, outcome, id);
    case QueueWait(t) => QueueWaitTouches(s, t, id);
    case RetryReturn(t) => RetryReturnTouches(s, t, id);
    case RunFinish(t, last) => RunFinishTouches(s, t, last, id);
    case CompleteWrite(who, k, res, last) => CompleteWriteTouches(s, who, k, res, last, id);
    case CompletePublish(last) => CompletePublishTouches(s, last, id);
    case CancelPut(k, last) => PutTouches(s, s, k, s.reqs[k].(cancels := s.reqs[k].cancels - 1), last, id);
  }

  lemma StepTouches(s: State, step: Step, id: Id)
    requires Enabled(s, step) && LeftAlone(s, id) && (step == QueueKick(id) ==> s.reqs[id].link == Capped) && s.nextId !in s.reqs
    ensures Untouched(s, Apply(s, step), id)
  {
    hide LeftAlone; hide Untouched; hide ContextEnabled; hide RequestEnabled; hide ContextApply; hide RequestApply;
    if OfContext(step) { ContextStepTouches(s, step, id); }
    else if Quiet(step) { QuietStepTouches(s, step, id); }
    else { PutStepTouches(s, step, id); }
  }

  lemma PinnedKeeps(s: State, step: Step, id: Id)
    requires Inv(s) && Enabled(s, step) && Pinned(s, id) && (step == QueueKick(id) ==> s.reqs[id].link == Capped)
    ensures Pinned(Apply(s, step), id)
  {
    hide Inv; hide Enabled; hide Apply; hide LeftAlone;
    PinnedAlone(s, id);
    NewId(s);
    StepTouches(s, step, id);
    StepKeeps(s, step);
    UncompletedAllocated(Apply(s, step), id);
  }

  lemma {:induction false} PinnedRun(s: State, id: Id, more: seq<Step>)
    requires Inv(s) && Pinned(s, id) && s.reqs[id].link == Empty && Runnable(s, more) && QueueKick(id) !in more
    ensures var s' := After(s, more); Pinned(s', id) && s'.reqs[id].link == Empty
    decreases |more|
  {
    hide Inv; hide Enabled; hide Apply;
    if more != [] {
      assert more[0] in more && forall x | x in more[1..] :: x in more;
      PinnedKeeps(s, more[0], id);
      EmptyStays(s, more[0], id);
      StepKeeps(s, more[0]);
      PinnedRun(Apply(s, more[0]), id, more[1..]);
    }
  }

  lemma EmptyStays(s: State, step: Step, id: Id)
    requires Inv(s) && Enabled(s, step) && Pinned(s, id) && s.reqs[id].link == Empty && step != QueueKick(id)
    ensures id in Apply(s, step).reqs ==> Apply(s, step).reqs[id].link == Empty
  {
    hide Inv; hide Enabled; hide Apply; hide LeftAlone;
    PinnedAlone(s, id);
    NewId(s);
    StepTouches(s, step, id);
  }

  // A kick that finds the request off the lists with no other kick in flight finds it
  // allocated when it comes to queue it, whatever happens in between, and queues it.
  lemma KickFindsRequest(s: State, slots: seq<Event>, steps: seq<Step>, id: Id, more: seq<Step>)
    requires Reachable(s, slots, steps) && Submitted(s, id)
    requires s.reqs[id].link == Empty && !s.reqs[id].kicked && s.reqs[id].kickers == 0
    requires Runnable(DoTryKick(s, id), more) && QueueKick(id) !in more
    ensures var s' := After(DoTryKick(s, id), more);
      id in s'.reqs && s'.reqs[id].kickers == 1 && OnRunList(DoQueueKick(s', id).reqs[id])
  {
    hide Reachable; hide Inv; hide Runnable; hide After;
    ReachableInv(s, slots, steps);
    EmptyUncompleted(s, id);
    KickStepKeeps(s, TryKick(id));
    PinnedRun(DoTryKick(s, id), id, more);
  }

  lemma EmptyUncompleted(s: State, id: Id)
    requires Inv(s) && Submitted(s, id) && s.reqs[id].link == Empty
    ensures id in s.uncompleted
  {
    hide Inv; hide Requests;
    ReqHolds(s, id);
  }

  // the ring never overflows, and readers get the completed events in order
  lemma RingDelivers(s: State, slots: seq<Event>, steps: seq<Step>)
    requires Reachable(s, slots, steps)
    ensures |s.uncompleted| + |s.ring.posted| - |s.ring.delivered| <= s.ring.nr - 1
    ensures s.ring.delivered <= s.ring.posted
    ensures forall i, j | 0 <= i < j < |s.ring.posted| :: s.ring.posted[i].req != s.ring.posted[j].req
    ensures forall id | 0 <= id < s.nextId ::
      (id in s.uncompleted || id in s.silent || Posted(s.ring.posted, id))
      && !(id in s.uncompleted && id in s.silent) && !(id in s.uncompleted && Posted(s.ring.posted, id))
      && !(id in s.silent && Posted(s.ring.posted, id))
  {
    ReachableInv(s, slots, steps);
  }

  // aio_complete never writes over an unread event
  lemma NoUnreadOverwritten(s: State, slots: seq<Event>, steps: seq<Step>, who: Who, id: Id, res: int, last: bool, i: nat)
    requires Reachable(s, slots, steps) && s.lock.Free? && MayComplete(s, who, id) && s.ring.tail < |s.ring.slots|
    requires |s.ring.delivered| <= i < |s.ring.posted|
    ensures var ring := DoCompleteWrite(s, who, id, res, last).ring;
      |ring.slots| == ring.nr > 0 && ring.slots[i % ring.nr] == s.ring.posted[i]
  {
    hide Reachable; hide Requests; hide Threads; hide Runners; hide Events; hide Frees; hide LockOk; hide MayComplete;
    ReachableInv(s, slots, steps);
    Completable(s, who, id);
    WriteKeeps(s.ring, Event(id, res));
    assert Slot(s.ring, i) == s.ring.posted[i];
  }

  // the request was cancelled before it completed, and has no event
  ghost predicate CalledOff(s: State, id: Id) {
    id < s.nextId && !Posted(s.ring.posted, id) && (id in s.uncompleted ==> id in s.reqs && s.reqs[id].cancelled)
  }

  // a step seen from request k: KIF_CANCELLED is never cleared, and no event is
  // published but the one of the request being completed
  ghost predicate Unharmed(s: State, s': State, k: Id) {
    && s.nextId <= s'.nextId && (k in s'.uncompleted ==> k in s.uncompleted || k >= s.nextId)
    && (k in s.reqs && k in s'.reqs && s.reqs[k].cancelled ==> s'.reqs[k].cancelled)
    && (s'.ring.posted == s.ring.posted || (s.lock.Held? && s'.ring.posted == s.ring.posted + [s.lock.event]))
  }

  lemma PutCancelled(s: State, id: Id, q: Req, last: bool, k: Id)
    requires id in s.reqs && q.cancelled == s.reqs[id].cancelled
    ensures var s' := PutReq(s, id, q, last); k in s.reqs && k in s'.reqs ==> s'.reqs[k].cancelled == s.reqs[k].cancelled
  {
    hide PutReq;
    PutFrame(s, id, q, last);
  }

  lemma PutUnharmed(s: State, s0: State, id: Id, q: Req, last: bool, k: Id)
    requires s0.ring == s.ring && s0.reqs == s.reqs && s0.nextId == s.nextId && s0.uncompleted <= s.uncompleted
    requires id in s.reqs && q.cancelled == s.reqs[id].cancelled
    ensures Unharmed(s, PutReq(s0, id, q, last), k)
  {
    hide PutReq;
    PutFrame(s0, id, q, last);
    PutCancelled(s0, id, q, last, k);
  }

  lemma FailSecondPutUnharmed(s: State, id: Id, last: bool, k: Id)
    requires id in s.reqs
    ensures Unharmed(s, DoFailSecondPut(s, id, last), k)
  {
    hide PutReq; hide Unharmed;
    PutUnharmed(s, s.(uncompleted := s.uncompleted - {id}, silent := s.silent + {id}), id, s.reqs[id].(submitter := Finished), last, k);
  }

  lemma RunStartUnharmed(s: State, t: Tid, id: Id, last: bool, k: Id)
    requires id in s.reqs
    ensures Unharmed(s, DoRunStart(s, t, id, last), k)
  {
    hide PutReq; hide Unharmed;
    var q := s.reqs[id];
    if q.retried > MAX_RETRIES {
      PutUnharmed(s, s, id, q.(users := q.users + 1, retried := q.retried + 1, link := Capped), last, k);
    } else {
      QuietUnharmed(s, DoRunStart(s, t, id, last), k);
    }
  }

  lemma RunFinishUnharmed(s: State, t: Tid, last: bool, k: Id)
    requires t in s.runs && s.runs[t].req in s.reqs && s.runs[t].pc.Returned?
    ensures Unharmed(s, DoRunFinish(s, t, last), k)
  {
    hide PutReq; hide Unharmed;
    var id := s.runs[t].req;
    var q := s.reqs[id].(runners := s.reqs[id].runners - {t});
    var link := if s.runs[t].pc.o != Again then q.link else if q.kicked then Linked(Context) else Empty;
    PutUnharmed(s, s.(runs := s.runs - {t}), id, q.(link := link), last, k);
  }

  lemma CompleteFrame(s: State, who: Who, id: Id, q: Req, last: bool, k: Id)
    requires id in s.reqs && q.cancelled == s.reqs[id].cancelled
    ensures var s' := Complete(s, who, id, q, last);
      && s'.ring == s.ring && s'.uncompleted == s.uncompleted - {id} && s'.nextId == s.nextId
      && (k in s.reqs && k in s'.reqs ==> s'.reqs[k].cancelled == s.reqs[k].cancelled)
  {
    hide PutReq;
    var s0 := Completer(s, who, id).(uncompleted := s.uncompleted - {id});
    PutFrame(s0, id, q.(handed := false), last);
    PutCancelled(s0, id, q.(handed := false), last, k);
  }

  lemma CompleteWriteUnharmed(s: State, who: Who, id: Id, res: int, last: bool, k: Id)
    requires MayComplete(s, who, id) && s.ring.tail < |s.ring.slots|
    ensures Unharmed(s, DoCompleteWrite(s, who, id, res, last), k)
  {
    hide Complete;
    var q := s.reqs[id].(link := if s.reqs[id].link.Linked? then Empty else s.reqs[id].link);
    CompleteFrame(s.(silent := s.silent + {id}), who, id, q, last, k);
  }

  lemma CompletePublishUnharmed(s: State, last: bool, k: Id)
    requires s.lock.Held? && s.lock.req in s.reqs && s.ring.nr > 0
    ensures Unharmed(s, DoCompletePublish(s, last), k)
  {
    hide Complete;
    CompleteFrame(s.(ring := Publish(s.ring, s.lock.event), lock := Free), s.lock.who, s.lock.req, s.reqs[s.lock.req], last, k);
  }

  // a step that completes nothing, and clears no cancelled flag of request k
  lemma QuietUnharmed(s: State, s': State, k: Id)
    requires s'.ring.posted == s.ring.posted && s'.uncompleted == s.uncompleted && s'.nextId == s.nextId
    requires k in s.reqs && k in s'.reqs && s.reqs[k].cancelled ==> s'.reqs[k].cancelled
    ensures Unharmed(s, s', k)
  {
  }

  lemma CancelUnharmed(s: State, id: Id, callback: bool, all: bool, k: Id)
    requires id in s.reqs
    ensures Unharmed(s, DoCancel(s, id, callback, all), k)
  {
    QuietUnharmed(s, DoCancel(s, id, callback, all), k);
  }

  lemma KickUnharmed(s: State, id: Id, k: Id)
    requires id in s.reqs
    ensures Unharmed(s, DoTryKick(s, id), k) && (s.reqs[id].kickers > 0 ==> Unharmed(s, DoQueueKick(s, id), k))
  {
  }

  lemma WakeUnharmed(s: State, id: Id, k: Id)
    requires id in s.reqs
    ensures Unharmed(s, DoWake(s, id), k) && (s.reqs[id].wakers > 0 ==> Unharmed(s, DoWakeKick(s, id), k))
  {
  }

  lemma BeginRetryUnharmed(s: State, t: Tid, outcome: Outcome, k: Id)
    requires t in s.runs && s.runs[t].req in s.reqs
    ensures Unharmed(s, DoBeginRetry(s, t, outcome), k) && Unharmed(s, DoQueueWait(s, t), k)
  {
  }

  lemma RetryReturnUnharmed(s: State, t: Tid, k: Id)
    requires t in s.runs && s.runs[t].req in s.reqs && s.runs[t].pc.Retrying?
    ensures Unharmed(s, DoRetryReturn(s, t), k)
  {
  }

  lemma RestUnharmed(s: State, id: Id, k: Id)
    requires id in s.reqs
    ensures Unharmed(s, WithReq(s, id, s.reqs[id].(submitter := Queueing, link := Linked(Context))), k)
    ensures Unharmed(s, WithReq(s, id, s.reqs[id].(place := Closing)), k)
    ensures Unharmed(s, Release(s, id, s.reqs[id]).(puts := s.puts + 1), k)
  {
  }

  lemma GetReqUnharmed(s: State, k: Id)
    requires s.ring.nr > 0 && k < s.nextId
    ensures Unharmed(s, DoGetReq(s), k)
  {
    hide Avail; hide FreshReq;
  }

  lemma SpliceUnharmed(s: State, t: Tid, k: Id)
    ensures Unharmed(s, DoSplice(s, t), k)
  {
  }

  lemma ContextStepUnharmed(s: State, step: Step, k: Id)
    requires ContextEnabled(s, step) && k < s.nextId
    ensures Unharmed(s, ContextApply(s, step), k)
  {
    hide Unharmed; hide DoGetReq; hide DoSplice; hide CanCopy;
    if step.GetReq? { GetReqUnharmed(s, k); }
    else if step.Splice? { SpliceUnharmed(s, step.t, k); }
    else { QuietUnharmed(s, ContextApply(s, step), k); }
  }

  lemma QuietStepUnharmed(s: State, step: Step, k: Id)
    requires RequestEnabled(s, step) && Quiet(step)
    ensures Unharmed(s, RequestApply(s, step), k)
  {
    hide Unharmed; hide DoTryKick; hide DoCancel; hide DoWakeKick; hide DoWake; hide DoQueueKick; hide MayComplete; hide Release;
    hide WithReq;
    if step.Wake? || step.WakeKick? { WakeUnharmed(s, step.id, k); }
    else if step.TryKick? || step.QueueKick? { KickUnharmed(s, step.id, k); }
    else if step.Cancel? || step.CancelAll? { CancelUnharmed(s, step.id, step.callback, step.CancelAll?, k); }
    else { RestUnharmed(s, step.id, k); }
  }

  lemma PutStepUnharmed(s: State, step: Step, k: Id)
    requires RequestEnabled(s, step) && !Quiet(step)
    ensures Unharmed(s, RequestApply(s, step), k)
  {
    hide Unharmed; hide PutReq; hide DoRunStart; hide DoBeginRetry; hide DoRetryReturn; hide DoFailSecondPut; hide DoQueueWait;
    hide DoRunFinish; hide DoCompleteWrite; hide DoCompletePublish; hide MayComplete;
    match step
    case FailFirstPut(id, last) => PutUnharmed(s, s, id, s.reqs[id].(submitter := Failing), last, k);
    case FailSecondPut(id, last) => FailSecondPutUnharmed(s, id, last, k);
    case SubmitPut(id, last) => PutUnharmed(s, s, id, s.reqs[id].(submitter := Finished), last, k);
    case RunStart(t, id, last) => RunStartUnharmed(s, t, id, last, k);
    case BeginRetry(t, outcome) => BeginRetryUnharmed(s, t, outcome, k);
    case QueueWait(t) => BeginRetryUnharmed(s, t, Again, k);
    case RetryReturn(t) => RetryReturnUnharmed(s, t, k);
    case RunFinish(t, last) => RunFinishUnharmed(s, t, last, k);
    case CompleteWrite(who, id, res, last) => CompleteWriteUnharmed(s, who, id, res, last, k);
    case CompletePublish(last) => CompletePublishUnharmed(s, last, k);
    case CancelPut(id, last) => PutUnharmed(s, s, id, s.reqs[id].(cancels := s.reqs[id].cancels - 1), last, k);
  }

  lemma AllUnharmed(s: State, step: Step, k: Id)
    requires Enabled(s, step) && k < s.nextId
    ensures Unharmed(s, Apply(s, step), k)
  {
    hide Unharmed; hide ContextEnabled; hide RequestEnabled; hide ContextApply; hide RequestApply;
    if OfContext(step) { ContextStepUnharmed(s, step, k); }
    else if Quiet(step) { QuietStepUnharmed(s, step, k); }
    else { PutStepUnharmed(s, step, k); }
  }

  // the event about to be published is not that of a cancelled request
  lemma LockedNotCancelled(s: State, id: Id)
    requires Inv(s) && CalledOff(s, id) && s.lock.Held?
    ensures s.lock.event.req != id
  {
  }

  lemma CalledOffKeeps(s: State, step: Step, id: Id)
    requires Inv(s) && Enabled(s, step) && CalledOff(s, id)
    ensures CalledOff(Apply(s, step), id)
  {
    hide Inv; hide Enabled; hide Apply;
    AllUnharmed(s, step, id);
    if s.lock.Held? { LockedNotCancelled(s, id); }
    StepKeeps(s, step);
    if id in Apply(s, step).uncompleted { UncompletedAllocated(Apply(s, step), id); }
  }

  lemma UncompletedAllocated(s: State, id: Id)
    requires Inv(s) && id in s.uncompleted
    ensures id in s.reqs
  {
  }

  // a request cancelled before it completes never gets an event, whatever happens next
  lemma {:induction false} CancelledGetsNoEvent(s: State, steps: seq<Step>, id: Id)
    requires Inv(s) && Runnable(s, steps) && CalledOff(s, id)
    ensures !Posted(After(s, steps).ring.posted, id)
    decreases |steps|
  {
    hide Inv; hide Enabled; hide Apply; hide Posted;
    if steps != [] {
      CalledOffKeeps(s, steps[0], id);
      StepKeeps(s, steps[0]);
      CancelledGetsNoEvent(Apply(s, steps[0]), steps[1..], id);
    }
  }

  // both cancel paths call a request off that is not complete
  lemma CancelCallsOff(s: State, id: Id, callback: bool, all: bool)
    requires Inv(s) && InUse(s, id) && id in s.uncompleted && (callback || all)
    ensures CalledOff(DoCancel(s, id, callback, all), id)
  {
  }

  // each request is freed exactly once and holds one context reference until then;
  // no BUG() is reached
  lemma ReferencesBalance(s: State, slots: seq<Event>, steps: seq<Step>)
    requires Reachable(s, slots, steps)
    ensures !s.bug && s.reqsActive == |s.reqs|
    ensures s.users == Bit(s.listed) + s.lookups + |s.reqs| + s.puts
    ensures forall id | 0 <= id < s.nextId :: id in s.reqs <==> id !in s.freed
    ensures forall i, j | 0 <= i < j < |s.freed| :: s.freed[i] != s.freed[j]
    ensures forall id | id in s.reqs :: s.reqs[id].users >= 0
  {
    ReachableInv(s, slots, steps);
    forall id | id in s.reqs
      ensures s.reqs[id].users >= 0
    {
      ReqHolds(s, id);
    }
  }

  // when the last reference to the context goes, every request has been freed and
  // has its event unless it finished silently
  lemma LastReference(s: State, slots: seq<Event>, steps: seq<Step>)
    requires Reachable(s, slots, steps) && s.users == 0
    ensures s.reqs == map[] && s.uncompleted == {} && s.runs == map[]
    ensures forall id | 0 <= id < s.nextId :: id in s.freed && (id in s.silent || Posted(s.ring.posted, id))
  {
    ReachableInv(s, slots, steps);
    assert |s.reqs| == 0;
  }
}
