/** The request queue on values: what submitting, batching, completing and cancelling do. */
module SchedulerModel {
  import opened Prelude

  datatype Status = PENDING | RUNNING | COMPLETED | CANCELLED | FAILED

  /** What the client asked for; fixed for the life of the request. */
  datatype Params = Params(id: Id, prompt: string, maxTokens: int, temperature: real, topK: int, topP: real)

  datatype Request = Request(
    params: Params,
    priority: int,
    createdAt: real,
    timeoutSeconds: real,
    status: Status,
    startedAt: Option<real>,
    completedAt: Option<real>,
    promptTokens: nat,
    generatedTokens: nat,
    outputText: string,
    error: Option<string>)
  {
    function Id(): Id { params.id }

    predicate IsTimedOut(now: real) { now - createdAt > timeoutSeconds }

    function Started(now: real): Request { this.(status := RUNNING, startedAt := Some(now)) }

    function Completed(text: string, tokens: nat, now: real): Request {
      this.(status := COMPLETED, completedAt := Some(now), outputText := text, generatedTokens := tokens)
    }

    function Cancelled(now: real): Request { this.(status := CANCELLED, completedAt := Some(now)) }

    function Failed(why: string, now: real): Request {
      this.(status := FAILED, completedAt := Some(now), error := Some(why))
    }
  }

  const TIMED_OUT := "Request timed out in queue"

  datatype Scheduler = Scheduler(
    maxQueueSize: int,
    defaultTimeout: real,
    policy: string,
    pending: seq<Request>,
    running: map<Id, Request>,
    completed: map<Id, Request>,
    totalSubmitted: nat,
    totalCompleted: nat,
    totalCancelled: nat,
    totalTimedOut: nat)

  function NewScheduler(maxQueueSize: int, defaultTimeout: real, policy: string): Scheduler {
    Scheduler(maxQueueSize, defaultTimeout, policy, [], map[], map[], 0, 0, 0, 0)
  }

  function Ids(rs: seq<Request>): (ids: seq<Id>)
    ensures |ids| == |rs| && forall i | 0 <= i < |rs| :: ids[i] == rs[i].Id()
  {
    seq(|rs|, i requires 0 <= i < |rs| => rs[i].Id())
  }

  // Named predicates, so that every filter by the same condition is the same function.

  function Late(now: real): Request -> bool { (r: Request) => r.IsTimedOut(now) }

  function Other(id: Id): Request -> bool { (r: Request) => r.Id() != id }

  /** The pending list without the request of that id. */
  function Drop(rs: seq<Request>, id: Id): seq<Request> { Filter(Other(id), rs) }

  function Find(rs: seq<Request>, id: Id): (r: Option<Request>)
    ensures r.Some? <==> id in Ids(rs)
    ensures r.Some? ==> r.value in rs && r.value.Id() == id
  {
    if rs == [] then None
    else if rs[0].Id() == id then Some(rs[0])
    else
      assert Ids(rs) == [rs[0].Id()] + Ids(rs[1..]);
      Find(rs[1..], id)
  }

  function Queued(s: Scheduler, r: Request): Request {
    r.(timeoutSeconds := if r.timeoutSeconds == 0.0 then s.defaultTimeout else r.timeoutSeconds)
  }

  /** A zero timeout means the default one. */
  function Submit(s: Scheduler, r: Request): (Scheduler, bool) {
    if |s.pending| >= s.maxQueueSize then (s, false) else
      (s.(pending := s.pending + [Queued(s, r)], totalSubmitted := s.totalSubmitted + 1), true)
  }

  function Expired(r: Request, now: real): Request { r.Cancelled(now).(error := Some(TIMED_OUT)) }

  function Expire(s: Scheduler, r: Request, now: real): Scheduler {
    s.(pending := Drop(s.pending, r.Id()),
       completed := s.completed[r.Id() := Expired(r, now)],
       totalTimedOut := s.totalTimedOut + 1)
  }

  function ExpireAll(s: Scheduler, late: seq<Request>, now: real): Scheduler {
    if late == [] then s else Expire(ExpireAll(s, Init(late), now), Last(late), now)
  }

  function EnforceTimeouts(s: Scheduler, now: real): Scheduler {
    ExpireAll(s, Filter(Late(now), s.pending), now)
  }

  // ----- ordering -----

  predicate KeyLe(a: Request, b: Request) {
    a.priority < b.priority || (a.priority == b.priority && a.createdAt <= b.createdAt)
  }

  /** Put x after every request that may stand before it. */
  function Insert(rs: seq<Request>, x: Request): seq<Request> {
    if rs == [] || KeyLe(Last(rs), x) then rs + [x] else Insert(Init(rs), x) + [Last(rs)]
  }

  function StableSort(rs: seq<Request>): seq<Request> {
    if rs == [] then [] else Insert(StableSort(Init(rs)), Last(rs))
  }

  /** The order in which the policy serves a pending list. */
  function InOrder(policy: string, rs: seq<Request>): seq<Request> {
    if policy == "priority" then StableSort(rs) else rs
  }

  function StartAll(rs: seq<Request>, now: real): (out: seq<Request>)
    ensures |out| == |rs| && forall i | 0 <= i < |rs| :: out[i] == rs[i].Started(now)
  {
    seq(|rs|, i requires 0 <= i < |rs| => rs[i].Started(now))
  }

  function AddAll(m: map<Id, Request>, rs: seq<Request>): map<Id, Request> {
    if rs == [] then m else AddAll(m, Init(rs))[Last(rs).Id() := Last(rs)]
  }

  function GetNextBatch(s: Scheduler, now: real, maxBatchSize: nat): (Scheduler, seq<Request>) {
    var s' := EnforceTimeouts(s, now);
    if s'.pending == [] then (s', []) else
      var queue := InOrder(s.policy, s'.pending);
      var n := Min(maxBatchSize, |queue|);
      var batch := StartAll(queue[..n], now);
      (s'.(pending := queue[n..], running := AddAll(s'.running, batch)), batch)
  }

  /** Completing an id that is not running changes nothing. */
  function Complete(s: Scheduler, id: Id, text: string, tokens: nat, now: real): Scheduler {
    if id !in s.running then s else
      s.(running := s.running - {id},
         completed := s.completed[id := s.running[id].Completed(text, tokens, now)],
         totalCompleted := s.totalCompleted + 1)
  }

  function CancelPending(s: Scheduler, r: Request, now: real): Scheduler {
    s.(pending := Drop(s.pending, r.Id()),
       completed := s.completed[r.Id() := r.Cancelled(now)],
       totalCancelled := s.totalCancelled + 1)
  }

  function Cancel(s: Scheduler, id: Id, now: real): (Scheduler, bool) {
    var r := Find(s.pending, id);
    if r.Some? then
      (CancelPending(s, r.value, now), true)
    else if id in s.running then
      (s.(running := s.running - {id}, completed := s.completed[id := s.running[id].Cancelled(now)],
          totalCancelled := s.totalCancelled + 1), true)
    else (s, false)
  }

  function GetRequestStatus(s: Scheduler, id: Id): Option<Request> {
    var r := Find(s.pending, id);
    if r.Some? then r
    else if id in s.running then Some(s.running[id])
    else if id in s.completed then Some(s.completed[id])
    else None
  }

  /** The engine writes to a request object that has left the queue; wherever it is filed, it changes there. */
  function Amend(s: Scheduler, id: Id, r: Request): Scheduler {
    if id in s.running then s.(running := s.running[id := r])
    else if id in s.completed then s.(completed := s.completed[id := r])
    else s
  }

  function Filed(s: Scheduler, id: Id): (r: Request)
    requires id in s.running || id in s.completed
  {
    if id in s.running then s.running[id] else s.completed[id]
  }

  function Fail(s: Scheduler, id: Id, why: string, now: real): Scheduler
    requires id in s.running || id in s.completed
  {
    Amend(s, id, Filed(s, id).Failed(why, now))
  }

  // ----- histories -----

  datatype SchedulerOp =
    | SubmitOp(request: Request)
    | BatchOp(now: real, maxBatchSize: nat)
    | CompleteOp(id: Id, text: string, tokens: nat, now: real)
    | CancelOp(id: Id, now: real)
    | FailOp(id: Id, why: string, now: real)

  function Apply(s: Scheduler, op: SchedulerOp): Scheduler {
    match op
    case SubmitOp(r) => Submit(s, r).0
    case BatchOp(now, k) => GetNextBatch(s, now, k).0
    case CompleteOp(id, text, n, now) => Complete(s, id, text, n, now)
    case CancelOp(id, now) => Cancel(s, id, now).0
    case FailOp(id, why, now) => if id in s.running || id in s.completed then Fail(s, id, why, now) else s
  }

  function Run(s: Scheduler, ops: seq<SchedulerOp>): Scheduler {
    if ops == [] then s else Apply(Run(s, Init(ops)), Last(ops))
  }

  ghost predicate Known(s: Scheduler, id: Id) {
    id in Ids(s.pending) || id in s.running || id in s.completed
  }

  /** Every submission carries an id not seen before and a request still in its initial status. */
  ghost predicate FreshRun(s: Scheduler, ops: seq<SchedulerOp>) {
    ops == [] || (FreshRun(s, Init(ops)) &&
                  (Last(ops).SubmitOp? ==>
                     !Known(Run(s, Init(ops)), Last(ops).request.Id()) && Last(ops).request.status == PENDING))
  }
}
